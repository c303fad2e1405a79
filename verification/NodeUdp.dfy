/** Event identifiers: `boot_id` and `sequence` as fixed-width lower-case hexadecimal text. */
module EventIds {
  import opened Wrappers
  import opened Text

  const U64_LIMIT: nat := 0x1_0000_0000_0000_0000
  const WIDTH: nat := 16

  type u64 = n: nat | n < U64_LIMIT

  function HexDigit(d: nat): char
    requires d < 16
  {
    if d < 10 then '0' + d as char else 'a' + (d - 10) as char
  }

  function DigitValue(c: char): nat {
    if '0' <= c <= '9' then (c - '0') as nat
    else if 'a' <= c <= 'f' then (c - 'a') as nat + 10 else 0
  }

  function Hex(n: nat, width: nat): (s: string)
    ensures |s| == width
  {
    if width == 0 then "" else Hex(n / 16, width - 1) + [HexDigit(n % 16)]
  }

  function Unhex(s: string): nat {
    if s == "" then 0 else 16 * Unhex(s[..|s| - 1]) + DigitValue(s[|s| - 1])
  }

  function Pow16(width: nat): nat {
    if width == 0 then 1 else 16 * Pow16(width - 1)
  }

  lemma DigitRoundTrip(d: nat)
    requires d < 16
    ensures DigitValue(HexDigit(d)) == d
  {}

  lemma {:induction false} HexRoundTrip(n: nat, width: nat)
    requires n < Pow16(width)
    ensures Unhex(Hex(n, width)) == n
  {
    if width > 0 {
      HexRoundTrip(n / 16, width - 1);
      DigitRoundTrip(n % 16);
      var s := Hex(n, width);
      assert s[..|s| - 1] == Hex(n / 16, width - 1);
    }
  }

  function EventId(bootId: u64, sequence: u64): string {
    Hex(bootId, WIDTH) + "-" + Hex(sequence, WIDTH)
  }

  lemma U64FitsSixteenDigits()
    ensures Pow16(WIDTH) == U64_LIMIT
  {
    assert Pow16(4) == 0x1_0000;
    assert Pow16(8) == 0x1_0000_0000 by {
      assert Pow16(6) == 0x100_0000;
    }
    assert Pow16(12) == 0x1_0000_0000_0000 by {
      assert Pow16(10) == 0x100_0000_0000;
    }
    assert Pow16(14) == 0x100_0000_0000_0000;
  }

  const HEX_DIGITS: string := "0123456789abcdef"

  lemma {:induction false} HexAlphabet(n: nat, width: nat)
    ensures forall k :: 0 <= k < width ==> Hex(n, width)[k] in HEX_DIGITS
  {
    if width > 0 {
      HexAlphabet(n / 16, width - 1);
      DigitAlphabet(n % 16);
    }
  }

  lemma DigitAlphabet(d: nat)
    requires d < 16
    ensures HexDigit(d) == HEX_DIGITS[d]
  {}

  /** The identifier is two texts of sixteen lower-case hexadecimal digits each, joined by a dash. As identifiers order
      like their numbers, no other digits could stand for them. */
  lemma EventIdShape(bootId: u64, sequence: u64)
    ensures var id := EventId(bootId, sequence);
      |id| == 33 && id[16] == '-' && forall k :: 0 <= k < 33 && k != 16 ==> id[k] in HEX_DIGITS
  {
    HexAlphabet(bootId, WIDTH);
    HexAlphabet(sequence, WIDTH);
    hide Hex;
  }

  /** Reads both numbers back from the text. */
  function ParseEventId(id: string): (nat, nat)
    requires |id| == 33
  {
    (Unhex(id[..16]), Unhex(id[17..]))
  }

  lemma EventIdRoundTrip(bootId: u64, sequence: u64)
    ensures |EventId(bootId, sequence)| == 33
    ensures ParseEventId(EventId(bootId, sequence)) == (bootId, sequence)
  {
    var id := EventId(bootId, sequence);
    U64FitsSixteenDigits();
    HexRoundTrip(bootId, WIDTH);
    HexRoundTrip(sequence, WIDTH);
    assert id[..16] == Hex(bootId, WIDTH) && id[17..] == Hex(sequence, WIDTH);
  }

  /** Identifiers are injective in boot and sequence. */
  lemma EventIdInjective(b1: u64, s1: u64, b2: u64, s2: u64)
    requires EventId(b1, s1) == EventId(b2, s2)
    ensures b1 == b2 && s1 == s2
  {
    EventIdRoundTrip(b1, s1);
    EventIdRoundTrip(b2, s2);
  }

  lemma {:induction false} TextLessSnoc(a: string, b: string, x: char, y: char)
    requires |a| == |b|
    ensures TextLess(a + [x], b + [y]) <==> TextLess(a, b) || (a == b && x < y)
  {
    if a == "" {
      assert a + [x] == [x] && b + [y] == [y];
      assert [x][1..] == "" && [y][1..] == "";
    } else {
      TextLessSnoc(a[1..], b[1..], x, y);
      assert (a + [x])[1..] == a[1..] + [x] && (b + [y])[1..] == b[1..] + [y];
      assert a == [a[0]] + a[1..] && b == [b[0]] + b[1..];
    }
  }

  lemma DigitOrder(c: nat, d: nat)
    requires c < 16 && d < 16
    ensures HexDigit(c) < HexDigit(d) <==> c < d
  {}

  lemma {:induction false} HexOrder(m: nat, n: nat, width: nat)
    requires m < Pow16(width) && n < Pow16(width)
    ensures TextLess(Hex(m, width), Hex(n, width)) <==> m < n
  {
    if width > 0 {
      HexOrder(m / 16, n / 16, width - 1);
      TextLessSnoc(Hex(m / 16, width - 1), Hex(n / 16, width - 1), HexDigit(m % 16), HexDigit(n % 16));
      DigitOrder(m % 16, n % 16);
      if Hex(m / 16, width - 1) == Hex(n / 16, width - 1) {
        HexRoundTrip(m / 16, width - 1);
        HexRoundTrip(n / 16, width - 1);
      }
    }
  }

  lemma {:induction false} TextLessPrefix(p: string, a: string, b: string)
    ensures TextLess(p + a, p + b) <==> TextLess(a, b)
  {
    if p == "" {
      assert p + a == a && p + b == b;
    } else {
      TextLessPrefix(p[1..], a, b);
      assert (p + a)[1..] == p[1..] + a && (p + b)[1..] == p[1..] + b;
    }
  }

  /** Within one boot, identifiers order as text exactly as their sequences order as numbers. */
  lemma EventIdOrder(bootId: u64, s1: u64, s2: u64)
    ensures TextLess(EventId(bootId, s1), EventId(bootId, s2)) <==> s1 < s2
  {
    U64FitsSixteenDigits();
    HexOrder(s1, s2, WIDTH);
    TextLessPrefix(Hex(bootId, WIDTH) + "-", Hex(s1, WIDTH), Hex(s2, WIDTH));
  }

  /** And the boots order as their halves of the text do. */
  lemma BootOrder(b1: u64, b2: u64, s1: u64, s2: u64)
    ensures TextLess(EventId(b1, s1)[..16], EventId(b2, s2)[..16]) <==> b1 < b2
  {
    U64FitsSixteenDigits();
    HexOrder(b1, b2, WIDTH);
    assert EventId(b1, s1)[..16] == Hex(b1, WIDTH) && EventId(b2, s2)[..16] == Hex(b2, WIDTH);
  }

  datatype ProtocolError = DeviceIdTooLong | SequenceExhausted

  /** One call of the generator: the next counter and the sequence handed out, if any. */
  function NextSequence(next: u64): (u64, Option<u64>) {
    if next == U64_LIMIT - 1 then (next, None) else (next + 1, Some(next))
  }

  class EventIdGenerator {
    const bootId: u64
    var nextSequence: u64

    constructor (bootId: u64)
      ensures this.bootId == bootId && nextSequence == 1
    {
      this.bootId, nextSequence := bootId, 1;
    }

    method NextEventId() returns (r: Result<string, ProtocolError>)
      modifies this
      ensures nextSequence == NextSequence(old(nextSequence)).0
      ensures r == match NextSequence(old(nextSequence)).1
                   case Some(sequence) => Ok(EventId(bootId, sequence))
                   case None => Err(SequenceExhausted)
    {
      if nextSequence + 1 == U64_LIMIT {
        return Err(SequenceExhausted);
      }
      var id := EventId(bootId, nextSequence);
      nextSequence := nextSequence + 1;
      r := Ok(id);
    }
  }

  /** The counter after a number of calls on a new generator, and the sequences handed out. */
  function Handed(calls: nat): (u64, seq<u64>) {
    if calls == 0 then (1, [])
    else
      var (next, handed) := Handed(calls - 1);
      var (next', s) := NextSequence(next);
      (next', if s.Some? then handed + [s.value] else handed)
  }

  /** A generator hands out 1 to 2^64 - 2 once each and then fails for ever, its counter at rest. */
  lemma {:induction false} SequencesOnceEach(calls: nat)
    ensures var (next, handed) := Handed(calls);
      && |handed| == (if calls <= U64_LIMIT - 2 then calls else U64_LIMIT - 2)
      && next == |handed| + 1
      && forall i :: 0 <= i < |handed| ==> handed[i] == i + 1
  {
    if calls > 0 {
      SequencesOnceEach(calls - 1);
    }
  }
}

/** The node's side of the UDP protocol: retries, event creation and ACK correlation. */
module NodeUdp {
  import opened Wrappers
  import opened Text
  import opened Messages
  import opened EventIds

  const DEVICE_ID_CAPACITY: nat := 64

  /** What a call of the retry policy returns, from the attempts already started. */
  function Attempt(retryCount: nat, started: nat): Option<nat> {
    if started > retryCount then None else Some((started + 1) % 256)
  }

  class RetryPolicy {
    const retryCount: nat
    var attemptsStarted: nat

    ghost predicate Valid()
      reads this
    {
      retryCount < 256 && attemptsStarted <= retryCount + 1
    }

    constructor (retryCount: nat)
      requires retryCount < 256
      ensures Valid() && this.retryCount == retryCount && attemptsStarted == 0
    {
      this.retryCount, attemptsStarted := retryCount, 0;
    }

    /** The label is the u16 count cast to u8. */
    method NextAttempt() returns (attempt: Option<nat>)
      requires Valid()
      modifies this
      ensures Valid()
      ensures attempt == Attempt(retryCount, old(attemptsStarted))
      ensures attemptsStarted == old(attemptsStarted) + if attempt.Some? then 1 else 0
    {
      if attemptsStarted > retryCount {
        return None;
      }
      attemptsStarted := attemptsStarted + 1;
      attempt := Some(attemptsStarted % 256);
    }
  }

  /** The labels a policy hands out when asked a number of times. */
  function Labels(retryCount: nat, asked: nat): seq<nat> {
    if asked == 0 then []
    else
      var before := Labels(retryCount, asked - 1);
      match Attempt(retryCount, |before|)
      case Some(number) => before + [number]
      case None => before
  }

  /** One transmission and `retryCount` retries; only the 256th attempt is labelled 0. */
  lemma {:induction false} ExactlyRetryCountPlusOne(retryCount: nat, asked: nat)
    requires retryCount < 256
    ensures var labels := Labels(retryCount, asked);
      && |labels| == (if asked <= retryCount + 1 then asked else retryCount + 1)
      && forall i :: 0 <= i < |labels| ==> labels[i] == (if i == 255 then 0 else i + 1)
  {
    if asked > 0 {
      ExactlyRetryCountPlusOne(retryCount, asked - 1);
    }
  }

  predicate AckMatches(deviceId: DeviceId, eventId: string, received: Option<UdpMessage>) {
    received == Some(Ack(deviceId, eventId))
  }

  class NodeUdpProtocol {
    const deviceId: DeviceId
    const eventIds: EventIdGenerator

    constructor (deviceId: DeviceId, bootId: u64)
      ensures this.deviceId == deviceId && fresh(eventIds)
      ensures eventIds.bootId == bootId && eventIds.nextSequence == 1
    {
      this.deviceId := deviceId;
      eventIds := new EventIdGenerator(bootId);
    }

    static method New(deviceId: DeviceId, bootId: u64) returns (r: Result<NodeUdpProtocol, ProtocolError>)
      ensures r.Err? <==> Utf8Length(deviceId) > DEVICE_ID_CAPACITY
      ensures r.Ok? ==> fresh(r.value) && fresh(r.value.eventIds) && r.value.deviceId == deviceId
                        && r.value.eventIds.bootId == bootId && r.value.eventIds.nextSequence == 1
    {
      if Utf8Length(deviceId) > DEVICE_ID_CAPACITY {
        return Err(DeviceIdTooLong);
      }
      var protocol := new NodeUdpProtocol(deviceId, bootId);
      r := Ok(protocol);
    }

    method EventFromAction(actionId: ActionId) returns (r: Result<UdpMessage, ProtocolError>)
      modifies eventIds
      ensures eventIds.nextSequence == NextSequence(old(eventIds.nextSequence)).0
      ensures r == match NextSequence(old(eventIds.nextSequence)).1
                   case Some(s) => Ok(Event(deviceId, EventId(eventIds.bootId, s), actionId))
                   case None => Err(SequenceExhausted)
    {
      var id := eventIds.NextEventId();
      match id
      case Err(error) => r := Err(error);
      case Ok(text) => r := Ok(Event(deviceId, text, actionId));
    }
  }
}
