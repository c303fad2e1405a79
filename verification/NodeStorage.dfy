/** The flash record that holds the node's configuration. */
module FlashRecord {
  import opened Wrappers
  import opened Bytes

  const CONFIG_STORAGE_SIZE: nat := 4096
  const CONFIG_RECORD_MAGIC: nat := 0x5543_4647
  const CONFIG_RECORD_HEADER_SIZE: nat := 8
  const MAX_RECORD: nat := CONFIG_STORAGE_SIZE - CONFIG_RECORD_HEADER_SIZE

  predicate IsRegion(s: seq<Byte>) {
    |s| == CONFIG_STORAGE_SIZE
  }

  // ---- The format ------------------------------------------------------------------

  function FromLe(bytes: seq<Byte>): nat {
    if bytes == [] then 0 else bytes[0] + 256 * FromLe(bytes[1..])
  }

  function ToLe(n: nat, width: nat): (bytes: seq<Byte>)
    ensures |bytes| == width
  {
    if width == 0 then [] else [n % 256] + ToLe(n / 256, width - 1)
  }

  function Header(length: nat): (h: seq<Byte>)
    ensures |h| == CONFIG_RECORD_HEADER_SIZE
  {
    ToLe(CONFIG_RECORD_MAGIC, 4) + ToLe(length % 0x1_0000, 2) + [0xff, 0xff]
  }

  /** The header byte by byte: the magic and the length, least significant byte first. */
  lemma HeaderBytes(length: nat)
    requires length < 0x1_0000
    ensures Header(length) == [0x47, 0x46, 0x43, 0x55, length % 256, length / 256, 0xff, 0xff]
  {
    assert ToLe(CONFIG_RECORD_MAGIC, 4) == [0x47, 0x46, 0x43, 0x55] by {
      assert ToLe(0x55, 1) == [0x55] && ToLe(0x5543, 2) == [0x43, 0x55];
    }
    assert ToLe(length, 2) == [length % 256, length / 256] by {
      assert ToLe(length / 256, 1) == [length / 256];
    }
  }

  /** What a region holds; an erased, foreign or impossible record counts as nothing. */
  function Stored(region: seq<Byte>, capacity: nat): (data: seq<Byte>)
    requires IsRegion(region)
    ensures |data| <= capacity && |data| <= MAX_RECORD
  {
    if FromLe(region[..4]) != CONFIG_RECORD_MAGIC then []
    else
      var length := FromLe(region[4..6]);
      if length == 0 || length > MAX_RECORD || length > capacity then []
      else region[CONFIG_RECORD_HEADER_SIZE..CONFIG_RECORD_HEADER_SIZE + length]
  }

  lemma {:induction false} LeRoundTrip(bytes: seq<Byte>)
    ensures ToLe(FromLe(bytes), |bytes|) == bytes
  {
    if bytes != [] {
      LeRoundTrip(bytes[1..]);
      var low, high := bytes[0], FromLe(bytes[1..]);
      assert FromLe(bytes) % 256 == low && FromLe(bytes) / 256 == high;
      assert bytes == [low] + bytes[1..];
    }
  }

  function Power(width: nat): nat {
    if width == 0 then 1 else 256 * Power(width - 1)
  }

  lemma {:induction false} FromToLe(n: nat, width: nat)
    requires n < Power(width)
    ensures FromLe(ToLe(n, width)) == n
  {
    if width > 0 {
      FromToLe(n / 256, width - 1);
      assert ToLe(n, width)[1..] == ToLe(n / 256, width - 1);
    }
  }

  /** A region reads as `data` exactly when it carries the magic, the length and the bytes of `data`;
      the last two header bytes are free. */
  lemma ReadsExactly(region: seq<Byte>, data: seq<Byte>, capacity: nat)
    requires IsRegion(region) && data != []
    ensures Stored(region, capacity) == data <==>
      && |data| <= MAX_RECORD && |data| <= capacity
      && region[..6] == Header(|data|)[..6]
      && region[CONFIG_RECORD_HEADER_SIZE..CONFIG_RECORD_HEADER_SIZE + |data|] == data
  {
    hide FromLe, ToLe;
    var length := |data|;
    LeRoundTrip(region[..4]);
    LeRoundTrip(region[4..6]);
    assert region[..6] == region[..4] + region[4..6];
    if length <= MAX_RECORD {
      FromToLe(CONFIG_RECORD_MAGIC, 4) by { assert Power(4) == 0x1_0000_0000; }
      FromToLe(length, 2) by { assert Power(2) == 0x1_0000; }
      assert Header(length)[..6] == ToLe(CONFIG_RECORD_MAGIC, 4) + ToLe(length, 2);
      assert region[..6] == Header(length)[..6] ==>
          region[..4] == ToLe(CONFIG_RECORD_MAGIC, 4) && region[4..6] == ToLe(length, 2) by {
        if region[..6] == Header(length)[..6] {
          assert region[..4] == region[..6][..4] && region[4..6] == region[..6][4..];
        }
      }
    }
  }

  // ---- The device ------------------------------------------------------------------

  datatype EraseOutcome = Erased | EraseFails(left: seq<Byte>)

  /** Programming that succeeds may still have garbled the cells. */
  datatype ProgramOutcome = Exact | Garbled(left: seq<Byte>) | ProgramFails(left: seq<Byte>)

  /** What the flash does during one write. */
  datatype Device = Device(erase: EraseOutcome, program: ProgramOutcome, readable: bool)
  {
    predicate Possible() {
      && (erase.EraseFails? ==> IsRegion(erase.left))
      && (!program.Exact? ==> IsRegion(program.left))
    }

    predicate Faithful() {
      erase.Erased? && program.Exact?
    }
  }

  datatype FlashStorageError = Flash | TooLarge | VerifyFailed

  function Blank(): (region: seq<Byte>)
    ensures IsRegion(region)
  {
    seq(CONFIG_STORAGE_SIZE, i => 0xff)
  }

  /** The region that a faithful write of `data` leaves. */
  function Image(data: seq<Byte>): (region: seq<Byte>)
    requires |data| <= MAX_RECORD
    ensures IsRegion(region)
  {
    Header(|data|) + data + Blank()[CONFIG_RECORD_HEADER_SIZE + |data|..]
  }

  function AfterErase(region: seq<Byte>, outcome: EraseOutcome): seq<Byte> {
    if outcome.Erased? then Blank() else outcome.left
  }

  /** The check after programming compares the header alone. */
  function Verified(after: seq<Byte>, data: seq<Byte>, readable: bool): Result<(), FlashStorageError>
    requires IsRegion(after)
  {
    if !readable then Err(Flash)
    else if after[..CONFIG_RECORD_HEADER_SIZE] != Header(|data|) then Err(VerifyFailed)
    else Ok(())
  }

  function Write(region: seq<Byte>, data: seq<Byte>, device: Device): (r: (seq<Byte>, Result<(), FlashStorageError>))
    requires IsRegion(region) && device.Possible()
    ensures IsRegion(r.0)
  {
    if data == [] || |data| > MAX_RECORD then (region, Err(TooLarge))
    else if device.erase.EraseFails? then (device.erase.left, Err(Flash))
    else
      match device.program
      case Exact => (Image(data), Verified(Image(data), data, device.readable))
      case Garbled(left) => (left, Verified(left, data, device.readable))
      case ProgramFails(left) => (left, Err(Flash))
  }

  /** Every record of 1 to 4088 bytes reads back exactly, into any buffer that can hold it. */
  lemma RecordRoundTrip(data: seq<Byte>, capacity: nat)
    requires 1 <= |data| <= MAX_RECORD
    ensures Stored(Image(data), capacity) == if |data| <= capacity then data else []
  {
    hide FromLe, ToLe, Blank, Header;
    var region := Image(data);
    assert region[..6] == Header(|data|)[..6];
    assert region[8..8 + |data|] == data;
    ReadsExactly(region, data, |data|);
    ReadsExactly(region, data, capacity);
  }

  class FlashConfigStorage {
    const region: array<Byte>

    ghost predicate Valid()
      reads this
    {
      region.Length == CONFIG_STORAGE_SIZE
    }

    constructor (region: array<Byte>)
      requires region.Length == CONFIG_STORAGE_SIZE
      ensures Valid() && this.region == region
    {
      this.region := region;
    }

    method Read(destination: array<Byte>, readable: bool) returns (r: Result<nat, FlashStorageError>)
      requires Valid() && destination != region
      modifies destination
      ensures !readable ==> r == Err(Flash) && destination[..] == old(destination[..])
      ensures readable ==>
        var data := Stored(region[..], destination.Length);
        r == Ok(|data|) && destination[..] == data + old(destination[..])[|data|..]
    {
      hide FromLe;
      if !readable {
        return Err(Flash);
      }
      if FromLe(region[..][..4]) != CONFIG_RECORD_MAGIC {
        return Ok(0);
      }
      var length := FromLe(region[..][4..6]);
      if length == 0 || length > MAX_RECORD || length > destination.Length {
        return Ok(0);
      }
      forall i | 0 <= i < length {
        destination[i] := region[CONFIG_RECORD_HEADER_SIZE + i];
      }
      assert region[..] == old(region[..]);
      ghost var data := Stored(region[..], destination.Length);
      assert data == region[..][CONFIG_RECORD_HEADER_SIZE..CONFIG_RECORD_HEADER_SIZE + length];
      assert destination[..] == data + old(destination[..])[length..];
      r := Ok(length);
    }

    /** The device's own operations. */
    method BlockingErase(outcome: EraseOutcome) returns (ok: bool)
      requires Valid() && (outcome.EraseFails? ==> IsRegion(outcome.left))
      modifies region
      ensures region[..] == AfterErase(old(region[..]), outcome) && ok == outcome.Erased?
    {
      forall i | 0 <= i < region.Length {
        region[i] := AfterErase([], outcome)[i];
      }
      ok := outcome.Erased?;
    }

    method BlockingWrite(bytes: seq<Byte>, outcome: ProgramOutcome) returns (ok: bool)
      requires Valid() && |bytes| <= region.Length && (!outcome.Exact? ==> IsRegion(outcome.left))
      modifies region
      ensures region[..] == if outcome.Exact? then bytes + old(region[..])[|bytes|..] else outcome.left
      ensures ok == !outcome.ProgramFails?
    {
      if outcome.Exact? {
        forall i | 0 <= i < |bytes| {
          region[i] := bytes[i];
        }
      } else {
        forall i | 0 <= i < region.Length {
          region[i] := outcome.left[i];
        }
      }
      ok := !outcome.ProgramFails?;
    }

    method Save(data: seq<Byte>, device: Device) returns (r: Result<(), FlashStorageError>)
      requires Valid() && device.Possible()
      modifies region
      ensures (region[..], r) == Write(old(region[..]), data, device)
    {
      hide ToLe, Blank;
      if data == [] || |data| > MAX_RECORD {
        return Err(TooLarge);
      }
      var header := Header(|data|);
      var erased := BlockingErase(device.erase);
      if !erased {
        return Err(Flash);
      }
      var programmed := BlockingWrite(header + data, device.program);
      if !programmed {
        return Err(Flash);
      }
      if !device.readable {
        return Err(Flash);
      }
      if region[..CONFIG_RECORD_HEADER_SIZE] != header {
        assert region[..][..CONFIG_RECORD_HEADER_SIZE] == region[..CONFIG_RECORD_HEADER_SIZE];
        return Err(VerifyFailed);
      }
      assert region[..][..CONFIG_RECORD_HEADER_SIZE] == region[..CONFIG_RECORD_HEADER_SIZE];
      r := Ok(());
    }

    method Clear(outcome: EraseOutcome) returns (r: Result<(), FlashStorageError>)
      requires Valid() && (outcome.EraseFails? ==> IsRegion(outcome.left))
      modifies region
      ensures region[..] == AfterErase(old(region[..]), outcome)
      ensures r == if outcome.Erased? then Ok(()) else Err(Flash)
    {
      var erased := BlockingErase(outcome);
      r := if erased then Ok(()) else Err(Flash);
    }
  }
}
