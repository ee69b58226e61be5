/** The transmitting half of the UART server of src/user/tasks/uartserver.cc, for one channel: nothing
    accepted is lost, reordered or sent twice, flushes end when they should, and COM1 is paced. */
module UartServers {
  import opened Options
  import opened RingBuffers

  const IOBUF_SIZE: nat := 4096
  const COM1_WAITING_FOR_DOWN_TIMEOUT: int := 25

  datatype Channel = COM1 | COM2

  datatype CtsState = WaitingForDown(since: int) | WaitingForUp | ActuallyCts

  datatype Flags = Flags(txFull: bool, cts: bool)

  datatype FlushTask = FlushTask(tid: int, bytesRemaining: nat)

  /** What the flag register and the clock show at the n-th reading. */
  datatype Hardware = Hardware(flagsAt: nat -> Flags, timeAt: nat -> int)

  // ---------------------------------------------------------------------------------------------
  // What happens on a channel.

  /** A byte is sent, recorded on COM1 with its time; a modem notification on COM1 finds CTS low or high;
      clear_to_send answers; a flush is answered. */
  datatype Event =
    | Sent(byte: int, at: int)
    | CtsLow
    | CtsHigh
    | Probed(yes: bool)
    | Flushed(tid: int)

  /** A flush by `tid` is due once `target` bytes are on the wire. */
  datatype FlushDue = FlushDue(tid: int, target: nat)

  /** The bytes on the wire. */
  function Bytes(log: seq<Event>): seq<int> {
    if log == [] then []
    else
      var last := log[|log| - 1];
      Bytes(log[..|log| - 1]) + if last.Sent? then [last.byte] else []
  }

  /** Which flushes were answered, and how many bytes had been sent by then. */
  function Replies(log: seq<Event>): seq<FlushDue> {
    if log == [] then []
    else
      var front, last := log[..|log| - 1], log[|log| - 1];
      Replies(front) + if last.Flushed? then [FlushDue(last.tid, |Bytes(front)|)] else []
  }

  lemma LogMore(log: seq<Event>, e: Event)
    ensures Bytes(log + [e]) == if e.Sent? then Bytes(log) + [e.byte] else Bytes(log)
    ensures Replies(log + [e]) == if e.Flushed? then Replies(log) + [FlushDue(e.tid, |Bytes(log)|)] else Replies(log)
  {
    assert (log + [e])[..|log|] == log;
  }

  /** What clear_to_send answers. */
  function Clear(channel: Channel, flags: Flags, cts: CtsState, now: int): bool {
    if channel == COM2 then !flags.txFull
    else !flags.txFull && flags.cts &&
         (cts.ActuallyCts? || (cts.WaitingForDown? && now > cts.since + COM1_WAITING_FOR_DOWN_TIMEOUT))
  }

  /** How many readings clear_to_send makes from number r on. */
  function ProbeCost(hw: Hardware, channel: Channel, cts: CtsState, r: nat): nat {
    if channel == COM2 || hw.flagsAt(r).txFull || !hw.flagsAt(r).cts || cts.WaitingForUp? then 1
    else if cts.WaitingForDown? && hw.timeAt(r + 1) > cts.since + COM1_WAITING_FOR_DOWN_TIMEOUT then 3
    else 2
  }

  /** What a modem notification makes of the handshake. */
  function Seen(cts: CtsState, high: bool): CtsState {
    if !high then WaitingForUp else if cts.WaitingForUp? then ActuallyCts else cts
  }

  /** The state of the handshake after the events. */
  function CtsOf(channel: Channel, log: seq<Event>): CtsState {
    if log == [] then ActuallyCts
    else
      var cts := CtsOf(channel, log[..|log| - 1]);
      match log[|log| - 1]
      case Sent(_, at) => if channel == COM1 then WaitingForDown(at) else cts
      case CtsLow => Seen(cts, false)
      case CtsHigh => Seen(cts, true)
      case _ => cts
  }

  /** How often the hardware has been read for the events. */
  function Readings(hw: Hardware, channel: Channel, log: seq<Event>): nat {
    if log == [] then 0
    else
      var front := log[..|log| - 1];
      var r := Readings(hw, channel, front);
      match log[|log| - 1]
      case Probed(_) => r + ProbeCost(hw, channel, CtsOf(channel, front), r)
      case CtsLow => r + 1
      case CtsHigh => r + 1
      case _ => r
  }

  /** The last event is a yes of clear_to_send, and no byte has been sent for it yet. */
  predicate Unspent(log: seq<Event>) { log != [] && log[|log| - 1] == Probed(true) }

  /** The last event is a no of clear_to_send. */
  predicate Refused(log: seq<Event>) { log != [] && log[|log| - 1] == Probed(false) }

  /** The time recorded for a byte on COM1: the last reading of the clock. */
  function SentAt(hw: Hardware, channel: Channel, log: seq<Event>): int {
    var r := Readings(hw, channel, log);
    if channel == COM1 && r > 0 then hw.timeAt(r - 1) else 0
  }

  /** An event that can follow the log: the hardware shows what it says at the readings that are due, a
      byte is sent for a yes, and after a yes nothing but a byte. */
  predicate Follows(hw: Hardware, channel: Channel, log: seq<Event>, e: Event) {
    var flags := hw.flagsAt(Readings(hw, channel, log));
    && (e.Sent? <==> Unspent(log))
    && match e
       case Sent(_, at) => at == SentAt(hw, channel, log)
       case CtsLow => channel == COM1 && !flags.cts
       case CtsHigh => channel == COM1 && flags.cts
       case Probed(yes) =>
         yes == Clear(channel, flags, CtsOf(channel, log), hw.timeAt(Readings(hw, channel, log) + 1))
       case Flushed(_) => true
  }

  /** Every event follows those before it. */
  predicate Truthful(hw: Hardware, channel: Channel, log: seq<Event>) {
    log == [] ||
    var front := log[..|log| - 1];
    Truthful(hw, channel, front) && Follows(hw, channel, front, log[|log| - 1])
  }

  lemma StateMore(hw: Hardware, channel: Channel, log: seq<Event>, e: Event)
    ensures CtsOf(channel, log + [e]) ==
      match e
      case Sent(_, at) => if channel == COM1 then WaitingForDown(at) else CtsOf(channel, log)
      case CtsLow => Seen(CtsOf(channel, log), false)
      case CtsHigh => Seen(CtsOf(channel, log), true)
      case _ => CtsOf(channel, log)
    ensures Readings(hw, channel, log + [e]) == Readings(hw, channel, log) +
      match e
      case Probed(_) => ProbeCost(hw, channel, CtsOf(channel, log), Readings(hw, channel, log))
      case CtsLow => 1
      case CtsHigh => 1
      case _ => 0
    ensures Truthful(hw, channel, log + [e]) <==> Truthful(hw, channel, log) && Follows(hw, channel, log, e)
  {
    assert (log + [e])[..|log|] == log;
  }

  /** The yeses of clear_to_send. */
  function Yeses(log: seq<Event>): nat {
    if log == [] then 0 else Yeses(log[..|log| - 1]) + if log[|log| - 1] == Probed(true) then 1 else 0
  }

  /** Each yes is spent on one byte, but for one that has just been given. */
  lemma {:induction false} YesesSpent(hw: Hardware, channel: Channel, log: seq<Event>)
    requires Truthful(hw, channel, log)
    ensures Yeses(log) == |Bytes(log)| + if Unspent(log) then 1 else 0
  {
    if log == [] {
    } else {
      YesesSpent(hw, channel, log[..|log| - 1]);
    }
  }

  // ---------------------------------------------------------------------------------------------
  // Pacing.

  /** Since the last byte, sent at `at`: whether CTS was seen low, and then high. */
  datatype Phase = NoByte | After(at: int, low: bool, rose: bool)

  function PhaseAfter(p: Phase, e: Event): Phase {
    match e
    case Sent(_, at) => After(at, false, false)
    case CtsLow => if p.NoByte? then p else p.(low := true)
    case CtsHigh => if p.NoByte? then p else p.(rose := p.rose || p.low)
    case Probed(_) => p
    case Flushed(_) => p
  }

  function PhaseOf(log: seq<Event>): Phase {
    if log == [] then NoByte else PhaseAfter(PhaseOf(log[..|log| - 1]), log[|log| - 1])
  }

  predicate MaySend(p: Phase, at: int) {
    p.NoByte? || p.rose || at > p.at + COM1_WAITING_FOR_DOWN_TIMEOUT
  }

  ghost predicate PacedAt(log: seq<Event>, i: int) {
    0 <= i < |log| && log[i].Sent? ==> MaySend(PhaseOf(log[..i]), log[i].at)
  }

  ghost predicate Paced(log: seq<Event>) {
    forall i :: PacedAt(log, i)
  }

  lemma PacedMore(log: seq<Event>, e: Event)
    requires Paced(log) && (e.Sent? ==> MaySend(PhaseOf(log), e.at))
    ensures Paced(log + [e]) && PhaseOf(log + [e]) == PhaseAfter(PhaseOf(log), e)
  {
    assert (log + [e])[..|log|] == log;
    forall i ensures PacedAt(log + [e], i) {
      assert PacedAt(log, i);
      if 0 <= i < |log| { assert (log + [e])[..i] == log[..i]; }
    }
  }

  ghost predicate LowWithin(log: seq<Event>, i: int, j: int) {
    exists k :: i < k < j && 0 <= k < |log| && log[k].CtsLow?
  }

  ghost predicate RoseWithin(log: seq<Event>, i: int, j: int) {
    exists k, l :: i < k < l < j && 0 <= k && l < |log| && log[k].CtsLow? && log[l].CtsHigh?
  }

  /** What the phase after the first j events says of the events since the last byte, at i. */
  lemma {:induction false} PhaseMeans(log: seq<Event>, i: nat, j: nat)
    requires i < j <= |log| && log[i].Sent? && forall k :: i < k < j ==> !log[k].Sent?
    ensures PhaseOf(log[..j]) == After(log[i].at, LowWithin(log, i, j), RoseWithin(log, i, j))
  {
    assert log[..j][..j - 1] == log[..j - 1] && log[..j][j - 1] == log[j - 1];
    if i + 1 == j {
    } else {
      PhaseMeans(log, i, j - 1);
      LowOneMore(log, i, j);
      RoseOneMore(log, i, j);
    }
  }

  lemma LowOneMore(log: seq<Event>, i: nat, j: nat)
    requires i + 1 < j <= |log|
    ensures LowWithin(log, i, j) <==> LowWithin(log, i, j - 1) || log[j - 1].CtsLow?
  {
    if LowWithin(log, i, j) { var k :| i < k < j && log[k].CtsLow?; assert k < j - 1 ==> LowWithin(log, i, j - 1); }
    if LowWithin(log, i, j - 1) { var k :| i < k < j - 1 && log[k].CtsLow?; assert LowWithin(log, i, j); }
  }

  lemma RoseOneMore(log: seq<Event>, i: nat, j: nat)
    requires i + 1 < j <= |log|
    ensures RoseWithin(log, i, j) <==> RoseWithin(log, i, j - 1) || (LowWithin(log, i, j - 1) && log[j - 1].CtsHigh?)
  {
    if RoseWithin(log, i, j) {
      var k, l :| i < k < l < j && log[k].CtsLow? && log[l].CtsHigh?;
      assert l < j - 1 ==> RoseWithin(log, i, j - 1);
      assert l == j - 1 ==> LowWithin(log, i, j - 1);
    }
    if RoseWithin(log, i, j - 1) {
      var k, l :| i < k < l < j - 1 && log[k].CtsLow? && log[l].CtsHigh?;
      assert RoseWithin(log, i, j);
    }
    if LowWithin(log, i, j - 1) && log[j - 1].CtsHigh? {
      var k :| i < k < j - 1 && log[k].CtsLow?;
      assert RoseWithin(log, i, j);
    }
  }

  /** Events i and j are two bytes with none between them. */
  ghost predicate NextByte(log: seq<Event>, i: int, j: int) {
    0 <= i < j < |log| && log[i].Sent? && log[j].Sent? && forall k :: i < k < j ==> !log[k].Sent?
  }

  /** Between two consecutive bytes, CTS was seen low and later high, or more than 25 ticks passed. */
  ghost predicate Spaced(log: seq<Event>) {
    forall i, j :: NextByte(log, i, j) ==>
      RoseWithin(log, i, j) || log[j].at > log[i].at + COM1_WAITING_FOR_DOWN_TIMEOUT
  }

  lemma ConsecutiveBytes(log: seq<Event>, i: nat, j: nat)
    requires Paced(log) && NextByte(log, i, j)
    ensures RoseWithin(log, i, j) || log[j].at > log[i].at + COM1_WAITING_FOR_DOWN_TIMEOUT
  {
    PhaseMeans(log, i, j);
    assert PacedAt(log, j);
  }

  /** Pacing as decided byte by byte is pacing between all consecutive bytes. */
  lemma AllSpaced(log: seq<Event>)
    requires Paced(log)
    ensures Spaced(log)
  {
    forall i, j | NextByte(log, i, j)
      ensures RoseWithin(log, i, j) || log[j].at > log[i].at + COM1_WAITING_FOR_DOWN_TIMEOUT
    {
      ConsecutiveBytes(log, i, j);
    }
  }

  /** The handshake state knows what has been seen since the last byte. */
  ghost predicate CtsOk(cts: CtsState, p: Phase) {
    match cts
    case ActuallyCts => p.NoByte? || p.rose
    case WaitingForUp => p.NoByte? || p.low
    case WaitingForDown(since) => p.After? && p.at == since
  }

  /** Clock::Time never runs backwards. */
  ghost predicate Monotone(hw: Hardware) {
    forall m, n :: m <= n ==> hw.timeAt(m) <= hw.timeAt(n)
  }

  /** A byte that follows a yes may be sent. */
  lemma YesMaySend(hw: Hardware, log: seq<Event>)
    requires Monotone(hw) && Follows(hw, COM1, log, Probed(true)) && CtsOk(CtsOf(COM1, log), PhaseOf(log))
    ensures MaySend(PhaseOf(log + [Probed(true)]), SentAt(hw, COM1, log + [Probed(true)]))
  {
    StateMore(hw, COM1, log, Probed(true));
    assert (log + [Probed(true)])[..|log|] == log;
    var r := Readings(hw, COM1, log);
    assert hw.timeAt(r + 1) <= hw.timeAt(r + 2);
  }

  /** The handshake paces COM1: a byte follows another only after CTS was seen low and then high, or
      after more than 25 ticks. */
  lemma {:induction false} TruthfulPaced(hw: Hardware, log: seq<Event>)
    requires Monotone(hw) && Truthful(hw, COM1, log)
    ensures Paced(log) && CtsOk(CtsOf(COM1, log), PhaseOf(log))
  {
    if log == [] {
      forall i ensures PacedAt(log, i) {}
    } else {
      var front, e := log[..|log| - 1], log[|log| - 1];
      assert log == front + [e];
      TruthfulPaced(hw, front);
      if e.Sent? {
        var before := front[..|front| - 1];
        assert front == before + [Probed(true)];
        TruthfulPaced(hw, before);
        YesMaySend(hw, before);
      }
      PacedMore(front, e);
    }
  }

  // ---------------------------------------------------------------------------------------------
  // Why clear_to_send says yes or no, told from what the hardware shows and from the events themselves.

  /** The last byte was sent at `at`, and CTS has not been seen low since. */
  ghost predicate AwaitsFall(log: seq<Event>, at: int) {
    exists k :: 0 <= k < |log| && log[k].Sent? && log[k].at == at &&
      forall j :: k < j < |log| ==> !log[j].Sent? && !log[j].CtsLow?
  }

  /** CTS was seen low; since then it has not been seen high, and no byte has been sent. */
  ghost predicate AwaitsRise(log: seq<Event>) {
    exists k :: 0 <= k < |log| && log[k].CtsLow? && forall j :: k < j < |log| ==> !log[j].Sent? && !log[j].CtsHigh?
  }

  lemma AwaitsFallMore(log: seq<Event>, e: Event, at: int)
    ensures AwaitsFall(log + [e], at) <==>
              if e.Sent? then e.at == at else !e.CtsLow? && AwaitsFall(log, at)
  {
    var more := log + [e];
    assert more[|log|] == e && forall i :: 0 <= i < |log| ==> more[i] == log[i];
  }

  lemma AwaitsRiseMore(log: seq<Event>, e: Event)
    ensures AwaitsRise(log + [e]) <==> e.CtsLow? || (!e.Sent? && !e.CtsHigh? && AwaitsRise(log))
  {
    var more := log + [e];
    assert more[|log|] == e && forall i :: 0 <= i < |log| ==> more[i] == log[i];
  }

  /** The states of the handshake, in terms of the events. */
  lemma {:induction false} HandshakeMeans(log: seq<Event>, at: int)
    ensures CtsOf(COM1, log) == WaitingForDown(at) <==> AwaitsFall(log, at)
    ensures CtsOf(COM1, log) == WaitingForUp <==> AwaitsRise(log)
  {
    hide AwaitsFall, AwaitsRise;
    if log == [] {
      NothingAwaited(at);
    } else {
      var front, e := log[..|log| - 1], log[|log| - 1];
      assert log == front + [e];
      HandshakeMeans(front, at);
      AwaitsFallMore(front, e, at);
      AwaitsRiseMore(front, e);
    }
  }

  lemma NothingAwaited(at: int)
    ensures !AwaitsFall([], at) && !AwaitsRise([])
  {
  }

  /** At the reading that is due the transmitter has room, and on COM1 CTS is set. */
  predicate Room(hw: Hardware, channel: Channel, log: seq<Event>) {
    var flags := hw.flagsAt(Readings(hw, channel, log));
    !flags.txFull && (channel == COM1 ==> flags.cts)
  }

  /** COM1 waits for CTS to rise, or has waited for it to fall for at most 25 ticks. */
  ghost predicate HeldBack(hw: Hardware, log: seq<Event>) {
    AwaitsRise(log) || exists at :: AwaitsFall(log, at) && hw.timeAt(Readings(hw, COM1, log) + 1) <= at + 25
  }

  /** The line is free for a byte. */
  ghost predicate Free(hw: Hardware, channel: Channel, log: seq<Event>) {
    Room(hw, channel, log) && (channel == COM1 ==> !HeldBack(hw, log))
  }

  /** Event i is as it should be: clear_to_send says yes exactly if the line is free; a byte follows a yes at once,
      with a time read after the flags; sightings of CTS are what the flags show. */
  ghost predicate Justified(hw: Hardware, channel: Channel, log: seq<Event>, i: int) {
    0 <= i < |log| ==>
      match log[i]
      case Probed(yes) => yes <==> Free(hw, channel, log[..i])
      case Sent(_, at) =>
        && i > 0 && log[i - 1] == Probed(true) && Free(hw, channel, log[..i - 1])
        && (channel == COM1 ==> ReadSince(hw, channel, log, i, at))
      case CtsLow => channel == COM1 && !hw.flagsAt(Readings(hw, channel, log[..i])).cts
      case CtsHigh => channel == COM1 && hw.flagsAt(Readings(hw, channel, log[..i])).cts
      case Flushed(_) => true
  }

  /** `at` is a reading of the clock that the answer before event i made behind its look at the flags. */
  ghost predicate ReadSince(hw: Hardware, channel: Channel, log: seq<Event>, i: nat, at: int)
    requires 0 < i <= |log|
  {
    exists m :: Readings(hw, channel, log[..i - 1]) < m < Readings(hw, channel, log[..i]) && at == hw.timeAt(m)
  }

  /** The rule of clear_to_send. */
  lemma ClearIff(hw: Hardware, channel: Channel, log: seq<Event>)
    ensures Clear(channel, hw.flagsAt(Readings(hw, channel, log)), CtsOf(channel, log),
                  hw.timeAt(Readings(hw, channel, log) + 1))
        <==> Free(hw, channel, log)
  {
    hide Readings, CtsOf, AwaitsFall, AwaitsRise;
    if channel == COM1 {
      var cts := CtsOf(COM1, log);
      HandshakeMeans(log, if cts.WaitingForDown? then cts.since else 0);
      forall at ensures cts == WaitingForDown(at) <==> AwaitsFall(log, at) { HandshakeMeans(log, at); }
    }
  }

  lemma {:induction false} TruthfulAt(hw: Hardware, channel: Channel, log: seq<Event>, i: nat)
    requires Truthful(hw, channel, log) && i < |log|
    ensures Truthful(hw, channel, log[..i]) && Follows(hw, channel, log[..i], log[i])
    decreases |log|
  {
    if i == |log| - 1 {
    } else {
      assert log[..|log| - 1][..i] == log[..i];
      TruthfulAt(hw, channel, log[..|log| - 1], i);
    }
  }

  lemma ProbeJustified(hw: Hardware, channel: Channel, log: seq<Event>, i: nat)
    requires Truthful(hw, channel, log) && i < |log| && log[i].Probed?
    ensures log[i].yes <==> Free(hw, channel, log[..i])
  {
    hide Truthful, Readings, CtsOf, Free;
    TruthfulAt(hw, channel, log, i);
    ClearIff(hw, channel, log[..i]);
  }

  /** A byte follows a yes, and on COM1 a yes costs a reading of the clock. */
  lemma SentAfterYes(hw: Hardware, channel: Channel, log: seq<Event>, i: nat)
    requires Truthful(hw, channel, log) && i < |log| && log[i].Sent?
    ensures i > 0 && log[i - 1] == Probed(true)
    ensures channel == COM1 ==> ReadSince(hw, channel, log, i, log[i].at)
  {
    hide Truthful, Readings, CtsOf;
    TruthfulAt(hw, channel, log, i);
    TruthfulAt(hw, channel, log, i - 1);
    assert log[..i] == log[..i - 1] + [Probed(true)];
    StateMore(hw, channel, log[..i - 1], Probed(true));
    assert channel == COM1 ==> log[i].at == hw.timeAt(Readings(hw, channel, log[..i]) - 1);
  }

  /** Everything on record is as it should be. */
  lemma TruthfulJustified(hw: Hardware, channel: Channel, log: seq<Event>, i: int)
    requires Truthful(hw, channel, log)
    ensures Justified(hw, channel, log, i)
  {
    hide Truthful, Readings, CtsOf, Free, ReadSince, Clear;
    if 0 <= i < |log| {
      match log[i]
      case Probed(_) => ProbeJustified(hw, channel, log, i);
      case Sent(_, _) =>
        SentAfterYes(hw, channel, log, i);
        ProbeJustified(hw, channel, log, i - 1);
      case _ => TruthfulAt(hw, channel, log, i);
    }
  }

  /** The last event is a no of clear_to_send, and the line was not free. */
  ghost predicate Stuck(hw: Hardware, channel: Channel, log: seq<Event>) {
    Refused(log) && !Free(hw, channel, log[..|log| - 1])
  }

  // ---------------------------------------------------------------------------------------------
  // The program.

  lemma FrontMoves(wire: seq<int>, q: seq<int>, accepted: seq<int>)
    requires wire + q == accepted && q != []
    ensures (wire + [q[0]]) + q[1..] == accepted
  {
    assert q == [q[0]] + q[1..];
  }

  lemma BytesJoin(wire: seq<int>, q: seq<int>, accepted: seq<int>, c: int)
    requires wire + q == accepted
    ensures wire + (q + [c]) == accepted + [c]
  {
  }

  lemma SliceMore(a: seq<int>, msg: seq<int>, from: nat, i: nat)
    requires from <= i < |msg|
    ensures (a + msg[from..i]) + [msg[i]] == a + msg[from..i + 1]
  {
    assert msg[from..i + 1] == msg[from..i] + [msg[i]];
  }

  lemma SliceAll(a: seq<int>, msg: seq<int>, i: nat)
    requires i <= |msg|
    ensures (a + msg[..i]) + msg[i..] == a + msg && a + [] == a && msg[0..] == msg
  {
    assert msg == msg[..i] + msg[i..];
  }

  function SeenEvent(flags: Flags): Event { if flags.cts then CtsHigh else CtsLow }

  /** The flush that is pending, if any. */
  function PendingDue(task: Option<FlushTask>, sent: nat): seq<FlushDue> {
    if task.Some? then [FlushDue(task.value.tid, sent + task.value.bytesRemaining)] else []
  }

  /** The flushes asked for are, in order, those answered - with just what was accepted before them on
      the wire - and the pending one. */
  predicate Accounted(due: seq<FlushDue>, replies: seq<FlushDue>, task: Option<FlushTask>, sent: nat) {
    due == replies + PendingDue(task, sent)
  }

  /** Nothing is lost, and flushes are counted right. */
  predicate Books(accepted: seq<int>, wire: seq<int>, buffered: seq<int>, due: seq<FlushDue>, replies: seq<FlushDue>,
                  task: Option<FlushTask>)
  {
    && wire + buffered == accepted
    && Accounted(due, replies, task, |wire|)
    && (task.Some? ==> 0 < task.value.bytesRemaining <= |buffered|)
  }

  /** What is on record happened, and the program's state goes with it. */
  predicate Line(hw: Hardware, channel: Channel, log: seq<Event>, readings: nat, cts: CtsState) {
    Truthful(hw, channel, log) && readings == Readings(hw, channel, log) && cts == CtsOf(channel, log)
  }

  /** The state of a pending flush after another byte. */
  function CountDown(task: Option<FlushTask>): Option<FlushTask> {
    if task.Some? && task.value.bytesRemaining > 1 then
      Some(task.value.(bytesRemaining := task.value.bytesRemaining - 1))
    else None
  }

  /** The flush that the byte completes, if any. */
  function Completed(task: Option<FlushTask>, sent: nat): seq<FlushDue> {
    if task.Some? && task.value.bytesRemaining <= 1 then [FlushDue(task.value.tid, sent)] else []
  }

  lemma FrontSent(accepted: seq<int>, wire: seq<int>, buffered: seq<int>, due: seq<FlushDue>, replies: seq<FlushDue>,
                  task: Option<FlushTask>)
    requires Books(accepted, wire, buffered, due, replies, task) && buffered != []
    ensures Books(accepted, wire + [buffered[0]], buffered[1..], due, replies + Completed(task, |wire| + 1),
                  CountDown(task))
    ensures task.Some? ==> task.value.bytesRemaining > 0
  {
    FrontMoves(wire, buffered, accepted);
  }

  lemma FlushedNow(accepted: seq<int>, wire: seq<int>, due: seq<FlushDue>, replies: seq<FlushDue>, tid: int)
    requires Books(accepted, wire, [], due, replies, None)
    ensures Books(accepted, wire, [], due + [FlushDue(tid, |accepted|)], replies + [FlushDue(tid, |wire|)], None)
  {
  }

  lemma FlushPends(accepted: seq<int>, wire: seq<int>, buffered: seq<int>, due: seq<FlushDue>, replies: seq<FlushDue>,
                   tid: int)
    requires Books(accepted, wire, buffered, due, replies, None) && buffered != []
    ensures Books(accepted, wire, buffered, due + [FlushDue(tid, |accepted|)], replies,
                  Some(FlushTask(tid, |buffered|)))
  {
  }

  lemma BackBuffered(accepted: seq<int>, wire: seq<int>, buffered: seq<int>, due: seq<FlushDue>, replies: seq<FlushDue>,
                     task: Option<FlushTask>, c: int)
    requires Books(accepted, wire, buffered, due, replies, task)
    ensures Books(accepted + [c], wire, buffered + [c], due, replies, task)
  {
    BytesJoin(wire, buffered, accepted, c);
  }

  lemma SentAtOnce(accepted: seq<int>, wire: seq<int>, due: seq<FlushDue>, replies: seq<FlushDue>, c: int)
    requires Books(accepted, wire, [], due, replies, None)
    ensures Books(accepted + [c], wire + [c], [], due, replies, None)
  {
  }

  class Transmitter {
    const channel: Channel
    const hw: Hardware
    const buf: Queue<int>
    /** How often the hardware has been read. */
    var readings: nat
    var cts: CtsState
    var flushBlocked: Option<FlushTask>
    ghost var accepted: seq<int>
    ghost var log: seq<Event>
    /** The flushes asked for, each with the number of bytes accepted before it. */
    ghost var due: seq<FlushDue>

    ghost predicate Conserved()
      reads this, buf, buf.buf
    {
      && buf.Valid() && buf.buf.Length == IOBUF_SIZE
      && Books(accepted, Bytes(log), buf.Contents(), due, Replies(log), flushBlocked)
    }

    ghost predicate LineOk()
      reads this
    {
      Line(hw, channel, log, readings, cts)
    }

    ghost predicate Valid()
      reads this, buf, buf.buf
    {
      Conserved() && LineOk() && !Unspent(log)
    }

    constructor (c: Channel, h: Hardware)
      ensures Valid() && channel == c && hw == h && accepted == [] && due == [] && fresh(buf) && fresh(buf.buf)
    {
      channel := c;
      hw := h;
      buf := new Queue(IOBUF_SIZE);
      readings := 0;
      cts := ActuallyCts;
      flushBlocked := None;
      accepted, log, due := [], [], [];
    }

    method ReadFlags() returns (f: Flags)
      modifies this`readings
      ensures readings == old(readings) + 1 && f == hw.flagsAt(old(readings))
    {
      f := hw.flagsAt(readings);
      readings := readings + 1;
    }

    method ReadTime() returns (t: int)
      modifies this`readings
      ensures readings == old(readings) + 1 && t == hw.timeAt(old(readings))
    {
      t := hw.timeAt(readings);
      readings := readings + 1;
    }

    /** clear_to_send has just said yes; on COM1 the time of the byte is already in the handshake. */
    ghost predicate Granted()
      reads this
    {
      && Unspent(log) && Truthful(hw, channel, log) && readings == Readings(hw, channel, log)
      && cts == if channel == COM1 then WaitingForDown(SentAt(hw, channel, log)) else CtsOf(channel, log)
    }

    /** clear_to_send(): its answer joins the record. */
    method ClearToSend() returns (r: bool)
      requires LineOk() && !Unspent(log)
      modifies this`readings, this`cts, this`log
      ensures log == old(log) + [Probed(r)] && Bytes(log) == old(Bytes(log)) && Replies(log) == old(Replies(log))
      ensures r == Clear(channel, hw.flagsAt(old(readings)), old(cts), hw.timeAt(old(readings) + 1))
      ensures r <==> Free(hw, channel, old(log))
      ensures if r then Granted() else LineOk()
    {
      hide Truthful, Readings, CtsOf, Bytes, Replies, Free;
      ClearIff(hw, channel, log);
      var flags := ReadFlags();
      if channel == COM2 {
        r := !flags.txFull;
      } else if flags.txFull || !flags.cts {
        r := false;
      } else {
        match cts {
          case ActuallyCts =>
            var now := ReadTime();
            cts := WaitingForDown(now);
            r := true;
          case WaitingForDown(since) =>
            var now := ReadTime();
            if now > since + COM1_WAITING_FOR_DOWN_TIMEOUT {
              var later := ReadTime();
              cts := WaitingForDown(later);
              r := true;
            } else {
              r := false;
            }
          case WaitingForUp => r := false;
        }
      }
      LogMore(log, Probed(r));
      StateMore(hw, channel, log, Probed(r));
      log := log + [Probed(r)];
    }

    /** The store to the data register. */
    method SendByte(c: int)
      requires Granted()
      modifies this`log
      ensures log == old(log) + [Sent(c, SentAt(hw, channel, old(log)))] && LineOk()
      ensures Bytes(log) == old(Bytes(log)) + [c] && Replies(log) == old(Replies(log))
    {
      ghost var e := Sent(c, SentAt(hw, channel, log));
      LogMore(log, e);
      StateMore(hw, channel, log, e);
      log := log + [e];
    }

    /** The reply to a flush. */
    method ReplyFlush(tid: int)
      requires LineOk() && !Unspent(log)
      modifies this`log
      ensures log == old(log) + [Flushed(tid)] && LineOk() && Bytes(log) == old(Bytes(log))
      ensures Replies(log) == old(Replies(log)) + [FlushDue(tid, |Bytes(log)|)]
    {
      LogMore(log, Flushed(tid));
      StateMore(hw, channel, log, Flushed(tid));
      log := log + [Flushed(tid)];
    }

    /** record_byte_sent(): the pending flush waits for one byte less, and is answered at zero. */
    method RecordByteSent()
      requires LineOk() && !Unspent(log) && (flushBlocked.Some? ==> flushBlocked.value.bytesRemaining > 0)
      modifies this`flushBlocked, this`log
      ensures LineOk() && !Unspent(log) && old(log) <= log && Bytes(log) == old(Bytes(log))
      ensures flushBlocked == CountDown(old(flushBlocked))
      ensures Replies(log) == old(Replies(log)) + Completed(old(flushBlocked), |Bytes(log)|)
    {
      if flushBlocked.Some? {
        var task := flushBlocked.value;
        task := task.(bytesRemaining := task.bytesRemaining - 1);
        flushBlocked := Some(task);
        if task.bytesRemaining == 0 {
          ReplyFlush(task.tid);
          flushBlocked := None;
        }
      }
    }

    /** What a modem notification does to the handshake; the sighting of CTS joins the record. */
    method SeeModem()
      requires Valid() && channel == COM1
      modifies this`readings, this`cts, this`log
      ensures Valid()
      ensures log == old(log) + [SeenEvent(hw.flagsAt(old(readings)))] && Bytes(log) == old(Bytes(log))
      ensures cts == Seen(old(cts), hw.flagsAt(old(readings)).cts)
    {
      hide Window, Books, Truthful, Bytes, Replies, Readings, CtsOf;
      var flags := ReadFlags();
      LogMore(log, SeenEvent(flags));
      StateMore(hw, channel, log, SeenEvent(flags));
      log := log + [SeenEvent(flags)];
      NoteCts(flags);
    }

    method NoteCts(flags: Flags)
      modifies this`cts
      ensures cts == Seen(old(cts), flags.cts)
    {
      if flags.cts {
        if cts.WaitingForUp? { cts := ActuallyCts; }
      } else {
        cts := WaitingForUp;
      }
    }

    /** Spends a yes on the oldest buffered byte. */
    method SendFront()
      requires Conserved() && Granted() && buf.len > 0
      modifies this`log, this`flushBlocked, buf
      ensures Valid() && buf.len == old(buf.len) - 1
      ensures old(log) <= log && Bytes(log) == old(Bytes(log)) + [old(buf.Contents())[0]]
    {
      hide Window, Line, Books, Truthful, Bytes, Replies, Readings, CtsOf;
      FrontSent(accepted, Bytes(log), buf.Contents(), due, Replies(log), flushBlocked);
      var c := buf.PopFront();
      SendByte(c.value);
      RecordByteSent();
    }

    /** Sends one buffered byte, if the line is clear. */
    method SendBuffered() returns (sent: bool)
      requires Valid() && buf.len > 0
      modifies this`readings, this`cts, this`log, this`flushBlocked, buf
      ensures Valid() && old(log) <= log
      ensures sent ==> buf.len == old(buf.len) - 1 && Bytes(log) == old(Bytes(log)) + [old(buf.Contents())[0]]
      ensures !sent ==> log == old(log) + [Probed(false)]
    {
      hide Window, Line, Books, Truthful, Bytes, Replies, Readings, CtsOf;
      sent := ClearToSend();
      if sent { SendFront(); }
    }

    /** The transmitting part of a notification: sends until nothing is left or clear_to_send says no. */
    method Notify(tx: bool, modem: bool)
      requires Valid()
      modifies this`readings, this`cts, this`log, this`flushBlocked, buf
      ensures Valid() && old(log) <= log
      ensures !tx && !modem ==> log == old(log)
      ensures tx || modem ==> buf.len == 0 || (|log| > |old(log)| && Refused(log))
      ensures channel == COM1 && modem ==>
        |log| > |old(log)| && log[|old(log)|] == SeenEvent(hw.flagsAt(old(readings)))
    {
      hide Window, Line, Books, Truthful, Bytes, Replies, Readings, CtsOf;
      if tx || modem {
        if channel == COM1 && modem { SeeModem(); }
        ghost var seen := log;
        var more := true;
        while more && buf.len > 0
          invariant Valid() && seen <= log
          invariant more || (|log| > |seen| && Refused(log))
          decreases more, buf.len
        {
          more := SendBuffered();
        }
      }
    }

    method BufferByte(c: int) returns (ok: bool)
      requires Valid()
      modifies this`accepted, buf, buf.buf
      ensures Valid() && ok == (old(buf.len) < IOBUF_SIZE)
      ensures ok ==> accepted == old(accepted) + [c] && buf.len == old(buf.len) + 1
    {
      hide Window, Line, Books, Truthful, Bytes, Replies;
      BackBuffered(accepted, Bytes(log), buf.Contents(), due, Replies(log), flushBlocked, c);
      ok := buf.PushBack(c);
      if ok { accepted := accepted + [c]; }
    }

    /** Buffers msg[from..]; false is the panic for a full buffer. */
    method BufferRest(msg: seq<int>, from: nat) returns (ok: bool)
      requires Valid() && from <= |msg|
      modifies this`accepted, buf, buf.buf
      ensures ok <==> old(buf.len) + |msg| - from <= IOBUF_SIZE
      ensures ok ==> Valid() && accepted == old(accepted) + msg[from..]
    {
      hide Window, Line, Books, Truthful, Bytes, Replies;
      var i := from;
      while i < |msg|
        invariant from <= i <= |msg| && Valid() && accepted == old(accepted) + msg[from..i]
        invariant buf.len == old(buf.len) + i - from
        invariant buf.len <= IOBUF_SIZE
      {
        ok := BufferByte(msg[i]);
        if !ok { return; }
        SliceMore(old(accepted), msg, from, i);
        i := i + 1;
      }
      return true;
    }

    /** Nothing is buffered, so nothing is pending. */
    ghost predicate Drained()
      reads this, buf, buf.buf
    {
      Valid() && buf.Contents() == []
    }

    /** Spends a yes on a byte that was never buffered. */
    method SendNow(c: int)
      requires Conserved() && Granted() && buf.Contents() == []
      modifies this`log, this`accepted
      ensures Drained() && accepted == old(accepted) + [c] && old(log) <= log
    {
      hide Window, Line, Truthful, Bytes, Replies, Readings, CtsOf;
      SentAtOnce(accepted, Bytes(log), due, Replies(log), c);
      SendByte(c);
      accepted := accepted + [c];
    }

    /** Writes straight to the wire until clear_to_send says no; the buffer is empty. */
    method SendDirectly(msg: seq<int>) returns (i: nat)
      requires Drained()
      modifies this`readings, this`cts, this`log, this`accepted
      ensures Drained() && i <= |msg| && accepted == old(accepted) + msg[..i] && old(log) <= log
      ensures i < |msg| ==> |log| > |old(log)| && Refused(log)
    {
      hide Window, Line, Books, Truthful, Bytes, Replies, Readings, CtsOf;
      i := 0;
      var clear := true;
      while clear && i < |msg|
        invariant Drained() && i <= |msg| && accepted == old(accepted) + msg[..i] && old(log) <= log
        invariant clear || (|log| > |old(log)| && Refused(log))
        decreases clear, |msg| - i
      {
        clear := ClearToSend();
        if clear {
          SendNow(msg[i]);
          assert msg[..i + 1] == msg[..i] + [msg[i]];
          i := i + 1;
        }
      }
    }

    /** A Putstr request; false is the panic for a full buffer. The payload fits the request buffer. */
    method Putstr(msg: seq<int>) returns (ok: bool)
      requires Valid() && |msg| <= IOBUF_SIZE
      modifies this`readings, this`cts, this`log, this`accepted, buf, buf.buf
      ensures ok <==> old(buf.Contents()) == [] || |old(buf.Contents())| + |msg| <= IOBUF_SIZE
      ensures ok ==> Valid() && accepted == old(accepted) + msg && old(log) <= log
      ensures old(buf.Contents()) == [] && ok ==> buf.len == 0 || (|log| > |old(log)| && Refused(log))
      ensures old(buf.Contents()) != [] ==> log == old(log)
    {
      if buf.len == 0 {
        assert !flushBlocked.Some?;
        var i := SendDirectly(msg);
        SliceAll(old(accepted), msg, i);
        ok := BufferRest(msg, i);
      } else {
        SliceAll(old(accepted), msg, 0);
        ok := BufferRest(msg, 0);
      }
    }

    /** A Flush request; false is the panic for a second concurrent flush. */
    method Flush(tid: int) returns (ok: bool)
      requires Valid()
      modifies this`flushBlocked, this`log, this`due
      ensures ok <==> old(flushBlocked).None?
      ensures Valid() && old(log) <= log
      ensures ok ==> due == old(due) + [FlushDue(tid, |accepted|)]
      ensures ok && buf.Contents() == [] ==> log == old(log) + [Flushed(tid)] && flushBlocked.None?
      ensures ok && buf.Contents() != [] ==>
        log == old(log) && flushBlocked == Some(FlushTask(tid, |buf.Contents()|))
    {
      hide Window, Line, Truthful, Bytes, Replies, Readings, CtsOf;
      if buf.len == 0 {
        FlushedNow(accepted, Bytes(log), due, Replies(log), tid);
        ReplyFlush(tid);
        due := due + [FlushDue(tid, |accepted|)];
        return true;
      }
      if flushBlocked.Some? { return false; }
      FlushPends(accepted, Bytes(log), buf.Contents(), due, Replies(log), tid);
      flushBlocked := Some(FlushTask(tid, buf.len));
      due := due + [FlushDue(tid, |accepted|)];
      return true;
    }

    /** False is a panic. */
    method HandleRequest(req: Request) returns (ok: bool)
      requires Valid() && Fits(req)
      modifies this, buf, buf.buf
      ensures ok <==> Acceptable(req, old(buf.Contents()), old(flushBlocked))
      ensures ok ==> Valid() && old(log) <= log && accepted == old(accepted) + Payload(req)
      ensures ok ==> due == old(due) + Asked(req, |old(accepted)|)
      ensures ok ==> Served(hw, channel, req, Server(old(log), old(buf.Contents()), old(flushBlocked)),
                            Server(log, buf.Contents(), flushBlocked))
    {
      hide Window, Books, Truthful, Bytes, Replies, Readings, CtsOf;
      ok := true;
      match req {
        case NotifyReq(tx, modem) => Notify(tx, modem);
        case PutstrReq(msg) => ok := Putstr(msg);
        case FlushReq(tid) => ok := Flush(tid);
      }
    }

    /** The server loop, whatever is asked and whatever the hardware shows. `trail` holds its states before
        the first request and after each one handled; it panics at the next request, if there is one,
        because that one is not acceptable then.
        In the last state, the bytes on the wire followed by the buffered ones are the accepted payloads, in
        order; the flushes asked for are, in order, those answered and the pending one, each answered just
        when the bytes accepted before it had been sent; what is on record is what the hardware showed; each
        yes of clear_to_send was spent on one byte; and consecutive bytes on COM1 are spaced. */
    method Serve(requests: seq<Request>) returns (ok: bool, ghost trail: seq<Server>)
      requires Valid() && forall i :: 0 <= i < |requests| ==> Fits(requests[i])
      modifies this, buf, buf.buf
      ensures 0 < |trail| <= |requests| + 1 && (ok <==> |trail| == |requests| + 1)
      ensures trail[0] == Server(old(log), old(buf.Contents()), old(flushBlocked))
      ensures forall i :: 0 <= i < |trail| - 1 ==> Served(hw, channel, requests[i], trail[i], trail[i + 1])
      ensures forall i :: 0 <= i < |trail| ==>
                Stands(hw, channel, old(accepted), old(due), requests[..i], trail[i])
      ensures var t := trail[|trail| - 1];
              !ok ==> !Acceptable(requests[|trail| - 1], t.buffered, t.pending)
      ensures ok ==> Valid() && trail[|trail| - 1] == Server(log, buf.Contents(), flushBlocked)
      ensures var t, handled := trail[|trail| - 1], requests[..|trail| - 1];
              && Bytes(t.log) + t.buffered == old(accepted) + Payloads(handled)
              && Accounted(old(due) + FlushesAsked(handled, |old(accepted)|), Replies(t.log), t.pending, |Bytes(t.log)|)
              && Truthful(hw, channel, t.log) && Yeses(t.log) == |Bytes(t.log)|
              && (channel == COM1 && Monotone(hw) ==> Spaced(t.log))
              && (forall i :: Justified(hw, channel, t.log, i))
      ensures forall i :: 0 <= i < |trail| - 1 ==> LeftOver(hw, channel, requests[i], trail[i], trail[i + 1])
    {
      hide Window, Line, Books, Truthful, Bytes, Replies, Readings, CtsOf, Served, Stands, Justified, LeftOver;
      hide Accounted, Spaced, Yeses;
      ghost var last := Server(log, buf.Contents(), flushBlocked);
      trail := [last];
      StandsOk(hw, channel, accepted, due, last, readings, cts);
      var i := 0;
      ok := true;
      while i < |requests| && ok
        invariant |trail| - 1 <= i <= |requests| && (if ok then |trail| == i + 1 else 0 < |trail| <= |requests|)
        invariant trail[0] == Server(old(log), old(buf.Contents()), old(flushBlocked)) && trail[|trail| - 1] == last
        invariant forall j :: 0 <= j < |trail| - 1 ==> Served(hw, channel, requests[j], trail[j], trail[j + 1])
        invariant forall j :: 0 <= j < |trail| ==>
          Stands(hw, channel, old(accepted), old(due), requests[..j], trail[j])
        invariant ok ==> Valid() && last == Server(log, buf.Contents(), flushBlocked)
        invariant ok ==> Taken(old(accepted), old(due), accepted, due, requests[..|trail| - 1])
        invariant !ok ==> !Acceptable(requests[|trail| - 1], last.buffered, last.pending)
      {
        TakenMore(old(accepted), old(due), accepted, due, requests, i);
        ok := HandleRequest(requests[i]);
        if ok {
          last := Server(log, buf.Contents(), flushBlocked);
          trail := trail + [last];
          StandsOk(hw, channel, accepted, due, last, readings, cts);
        }
        i := i + 1;
      }
      StandsMeans(hw, channel, old(accepted), old(due), requests[..|trail| - 1], last);
      TrailLeftOver(hw, channel, old(accepted), old(due), requests, trail);
    }
  }

  /** A state of the server between two requests. */
  datatype Server = Server(log: seq<Event>, buffered: seq<int>, pending: Option<FlushTask>)

  /** The request makes the server send: a notification of the transmitter or the modem, or a payload that
      finds the buffer empty. */
  predicate Urges(req: Request, buffered: seq<int>) {
    match req
    case NotifyReq(tx, modem) => tx || modem
    case PutstrReq(msg) => buffered == []
    case FlushReq(_) => false
  }

  /** What handling a request does to the record: when it makes the server send, bytes are left only
      because clear_to_send has just said no; a modem notification on COM1 starts with a look at CTS. */
  predicate Served(hw: Hardware, channel: Channel, req: Request, s: Server, t: Server) {
    && Acceptable(req, s.buffered, s.pending) && s.log <= t.log
    && (Urges(req, s.buffered) ==> t.buffered == [] || (|t.log| > |s.log| && Refused(t.log)))
    && (!Urges(req, s.buffered) && !req.FlushReq? ==> t.log == s.log)
    && (req.NotifyReq? && req.modem && channel == COM1 ==>
          |t.log| > |s.log| && t.log[|s.log|] == SeenEvent(hw.flagsAt(Readings(hw, channel, s.log))))
  }

  /** A server that had to send has left bytes in the buffer only because the line was not free. */
  ghost predicate LeftOver(hw: Hardware, channel: Channel, req: Request, s: Server, t: Server) {
    Urges(req, s.buffered) ==> t.buffered == [] || Stuck(hw, channel, t.log)
  }

  /** The server stands where the requests leave it. */
  predicate Stands(hw: Hardware, channel: Channel, acc0: seq<int>, due0: seq<FlushDue>, requests: seq<Request>,
                   s: Server)
  {
    && Truthful(hw, channel, s.log) && !Unspent(s.log)
    && Books(acc0 + Payloads(requests), Bytes(s.log), s.buffered, due0 + FlushesAsked(requests, |acc0|), Replies(s.log),
             s.pending)
  }

  /** What Valid says of the state. */
  lemma StandsOk(hw: Hardware, channel: Channel, accepted: seq<int>, due: seq<FlushDue>, s: Server, readings: nat,
                 cts: CtsState)
    requires Line(hw, channel, s.log, readings, cts) && !Unspent(s.log)
    requires Books(accepted, Bytes(s.log), s.buffered, due, Replies(s.log), s.pending)
    ensures forall acc0, due0, requests :: Taken(acc0, due0, accepted, due, requests) ==>
              Stands(hw, channel, acc0, due0, requests, s)
  {
  }

  lemma StandsMeans(hw: Hardware, channel: Channel, acc0: seq<int>, due0: seq<FlushDue>, requests: seq<Request>,
                    s: Server)
    requires Stands(hw, channel, acc0, due0, requests, s)
    ensures Bytes(s.log) + s.buffered == acc0 + Payloads(requests)
    ensures Accounted(due0 + FlushesAsked(requests, |acc0|), Replies(s.log), s.pending, |Bytes(s.log)|)
    ensures Truthful(hw, channel, s.log) && Yeses(s.log) == |Bytes(s.log)|
    ensures channel == COM1 && Monotone(hw) ==> Spaced(s.log)
    ensures forall i :: Justified(hw, channel, s.log, i)
  {
    hide Justified, Follows, Bytes, Replies, Spaced;
    YesesSpent(hw, channel, s.log);
    forall i ensures Justified(hw, channel, s.log, i) { TruthfulJustified(hw, channel, s.log, i); }
    if channel == COM1 && Monotone(hw) {
      TruthfulPaced(hw, s.log);
      AllSpaced(s.log);
    }
  }

  lemma OnlyStuckLeaves(hw: Hardware, channel: Channel, acc0: seq<int>, due0: seq<FlushDue>, requests: seq<Request>,
                        req: Request, s: Server, t: Server)
    requires Stands(hw, channel, acc0, due0, requests, t) && Served(hw, channel, req, s, t)
    ensures LeftOver(hw, channel, req, s, t)
  {
    hide Free, Bytes, Replies, Books, Truthful;
    if Refused(t.log) { TruthfulJustified(hw, channel, t.log, |t.log| - 1); }
  }

  lemma TrailLeftOver(hw: Hardware, channel: Channel, acc0: seq<int>, due0: seq<FlushDue>, requests: seq<Request>,
                      trail: seq<Server>)
    requires |trail| <= |requests| + 1
    requires forall i :: 0 <= i < |trail| - 1 ==> Served(hw, channel, requests[i], trail[i], trail[i + 1])
    requires forall i :: 0 <= i < |trail| ==> Stands(hw, channel, acc0, due0, requests[..i], trail[i])
    ensures forall i :: 0 <= i < |trail| - 1 ==> LeftOver(hw, channel, requests[i], trail[i], trail[i + 1])
  {
    hide Served, Stands, LeftOver;
    forall i | 0 <= i < |trail| - 1 ensures LeftOver(hw, channel, requests[i], trail[i], trail[i + 1]) {
      OnlyStuckLeaves(hw, channel, acc0, due0, requests[..i + 1], requests[i], trail[i], trail[i + 1]);
    }
  }

  datatype Request = NotifyReq(tx: bool, modem: bool) | PutstrReq(msg: seq<int>) | FlushReq(tid: int)

  /** A request at which the server does not panic: Putstr finds the buffer empty or with room for all of
      its payload, Flush finds no other one pending. */
  predicate Acceptable(req: Request, buffered: seq<int>, pending: Option<FlushTask>) {
    match req
    case NotifyReq(_, _) => true
    case PutstrReq(msg) => buffered == [] || |buffered| + |msg| <= IOBUF_SIZE
    case FlushReq(_) => pending.None?
  }

  predicate Fits(req: Request) { req.PutstrReq? ==> |req.msg| <= IOBUF_SIZE }

  function Payload(req: Request): seq<int> { if req.PutstrReq? then req.msg else [] }

  function Payloads(requests: seq<Request>): seq<int> {
    if requests == [] then [] else Payloads(requests[..|requests| - 1]) + Payload(requests[|requests| - 1])
  }

  /** The flush that a request asks for when `before` bytes have been accepted. */
  function Asked(req: Request, before: nat): seq<FlushDue> {
    if req.FlushReq? then [FlushDue(req.tid, before)] else []
  }

  /** The flushes that the requests ask for, each due when all payloads before it, and the `before`
      bytes accepted earlier, have been sent. */
  function FlushesAsked(requests: seq<Request>, before: nat): seq<FlushDue> {
    if requests == [] then []
    else
      var front := requests[..|requests| - 1];
      FlushesAsked(front, before) + Asked(requests[|requests| - 1], before + |Payloads(front)|)
  }

  /** What has been accepted and asked for, after the requests. */
  predicate Taken(acc0: seq<int>, due0: seq<FlushDue>, acc: seq<int>, due: seq<FlushDue>, requests: seq<Request>) {
    acc == acc0 + Payloads(requests) && due == due0 + FlushesAsked(requests, |acc0|)
  }

  lemma TakenMore(acc0: seq<int>, due0: seq<FlushDue>, acc: seq<int>, due: seq<FlushDue>, requests: seq<Request>,
                  i: nat)
    requires i < |requests| && Taken(acc0, due0, acc, due, requests[..i])
    ensures Taken(acc0, due0, acc + Payload(requests[i]), due + Asked(requests[i], |acc|), requests[..i + 1])
  {
    assert requests[..i + 1][..i] == requests[..i] && requests[..i + 1][i] == requests[i];
  }
}
