/**
 * The Snowflake generator of `backend/libs/snowflake/src`: bit layout, the stateful generator against an
 * arbitrary host clock, and what a whole run of one or several generators guarantees.
 */
module Snowflake {
  import opened Bits
  import opened Decimal
  import opened Prelude

  const EPOCH_MS := 1_767_225_600_000
  const NODE_ID_BITS: nat := 10
  const SEQUENCE_BITS: nat := 12
  const NODES: nat := 1024
  const SLOTS_PER_MS: nat := 4096

  // ---------------------------------------------------------------- layout

  /** The id: two shifts and two ORs. */
  function Encode(timestamp: int, node: nat, sequence: nat): int {
    Or(Or(ShiftLeft(timestamp, NODE_ID_BITS + SEQUENCE_BITS), ShiftLeft(node, SEQUENCE_BITS)), sequence)
  }

  predicate Fits(node: nat, sequence: nat) {
    node < NODES && sequence < SLOTS_PER_MS
  }

  /** For in-range fields the ORs never carry, also when the timestamp is negative. */
  lemma Layout(timestamp: int, node: nat, sequence: nat)
    requires Fits(node, sequence)
    ensures Encode(timestamp, node, sequence) == timestamp * 4194304 + node * 4096 + sequence
  {
    Powers();
    OrShifted(timestamp, ShiftLeft(node, SEQUENCE_BITS), NODE_ID_BITS + SEQUENCE_BITS);
    var high := timestamp * 1024 + node;
    assert ShiftLeft(high, SEQUENCE_BITS) == timestamp * 4194304 + node * 4096;
    OrShifted(high, sequence, SEQUENCE_BITS);
  }

  lemma Powers()
    ensures Pow2(10) == 1024 && Pow2(12) == 4096 && Pow2(22) == 4194304
  {
    assert Pow2(6) == 64;
    assert Pow2(12) == 4096;
    assert Pow2(18) == 262144;
  }

  /** The three fields can be read back, so ids with a different field differ. */
  lemma Decodes(timestamp: int, node: nat, sequence: nat)
    requires Fits(node, sequence)
    ensures var id := Encode(timestamp, node, sequence);
            id / 4194304 == timestamp && id / 4096 % 1024 == node && id % 4096 == sequence
  {
    Layout(timestamp, node, sequence);
    var id := Encode(timestamp, node, sequence);
    var high := timestamp * 1024 + node;
    DivModUnique(id, 4194304, timestamp, node * 4096 + sequence);
    DivModUnique(id, 4096, high, sequence);
    DivModUnique(high, 1024, timestamp, node);
  }

  /** Ids sort by timestamp first whatever the node, then by node, then by sequence. */
  lemma OrderedByTimestampFirst(t: int, n: nat, s: nat, t': int, n': nat, s': nat)
    requires Fits(n, s) && Fits(n', s')
    ensures Encode(t, n, s) < Encode(t', n', s') <==> t < t' || (t == t' && (n < n' || (n == n' && s < s')))
  {
    Layout(t, n, s);
    Layout(t', n', s');
  }

  /** An id is a non-negative 64-bit integer exactly while its timestamp is a non-negative 41-bit one. */
  lemma FitsBigint(timestamp: int, node: nat, sequence: nat)
    requires Fits(node, sequence)
    ensures 0 <= Encode(timestamp, node, sequence) < 0x8000_0000_0000_0000 <==> 0 <= timestamp < 0x200_0000_0000
  {
    Layout(timestamp, node, sequence);
  }

  /** Masking wraps the last slot of a millisecond to 0 and leaves the others alone. */
  lemma SequenceWraps(sequence: nat)
    requires sequence < SLOTS_PER_MS
    ensures And(sequence + 1, ShiftLeft(1, SEQUENCE_BITS) - 1)
         == if sequence == SLOTS_PER_MS - 1 then 0 else sequence + 1
  {
    Powers();
    AndMask(sequence + 1, SEQUENCE_BITS);
  }

  // ---------------------------------------------------------------- one call

  /** `last` and `sequence` are the generator's two private fields. */
  datatype Generator = Generator(last: int, sequence: nat)

  const BOOTED := Generator(-1, 0)

  /** The clock readings one call uses: the first, and the one that ended the wait if there was a wait. */
  datatype Reading = Reading(first: int, awaited: int)

  datatype Slot = Slot(timestamp: int, sequence: nat)

  predicate WentBack(g: Generator, r: Reading) {
    r.first - EPOCH_MS < g.last
  }

  predicate Exhausted(g: Generator, first: int) {
    first - EPOCH_MS == g.last && g.sequence == SLOTS_PER_MS - 1
  }

  /** The wait only ends on a later millisecond. */
  predicate Waited(g: Generator, r: Reading) {
    Exhausted(g, r.first) ==> r.awaited - EPOCH_MS > g.last
  }

  /** The generator's fields after one call; a backward clock leaves them alone. */
  function Advance(g: Generator, r: Reading): Generator {
    var timestamp := r.first - EPOCH_MS;
    if timestamp < g.last then g
    else if timestamp > g.last then Generator(timestamp, 0)
    else if g.sequence < SLOTS_PER_MS - 1 then Generator(timestamp, g.sequence + 1)
    else Generator(r.awaited - EPOCH_MS, 0)
  }

  /** The decimal id, or the drift the clock error carries. */
  function Answer(g: Generator, r: Reading, node: nat): Result<string, int> {
    if WentBack(g, r) then Err(g.last - (r.first - EPOCH_MS))
    else var g' := Advance(g, r); Ok(PrintInt(Encode(g'.last, node, g'.sequence)))
  }

  /** A host clock is any sequence of readings; it may stand still or jump either way. */
  class HostClock {
    const readings: nat -> int
    var position: nat

    constructor (readings: nat -> int)
      ensures this.readings == readings && position == 0
    {
      this.readings := readings;
      position := 0;
    }

    method Read() returns (now: int)
      modifies this
      ensures now == readings(old(position)) && position == old(position) + 1
    {
      now := readings(position);
      position := position + 1;
    }
  }

  datatype ConfigurationError = BadNodeId | ClockBeforeEpoch(reading: int)

  /** A JavaScript number: a finite one, or NaN or an infinity. */
  datatype Number = Finite(value: real) | NotFinite

  predicate IsInteger(n: Number) {
    n.Finite? && n.value.Floor as real == n.value
  }

  /** An integer of ten bits. */
  predicate IsValidNodeId(nodeId: Number) {
    IsInteger(nodeId) && 0.0 <= nodeId.value <= 1023.0
  }

  class SnowflakeGenerator {
    const nodeId: nat
    const clock: HostClock
    var lastTimestamp: int
    var sequence: nat

    ghost predicate Valid()
      reads this
    {
      Fits(nodeId, sequence)
    }

    ghost function State(): Generator
      reads this
    {
      Generator(lastTimestamp, sequence)
    }

    constructor (nodeId: nat, clock: HostClock)
      requires nodeId < NODES
      ensures Valid() && State() == BOOTED && this.nodeId == nodeId && this.clock == clock
    {
      this.nodeId := nodeId;
      this.clock := clock;
      lastTimestamp := -1;
      sequence := 0;
    }

    /** Refuses a bad node id without a look at the clock, then a clock before the epoch, read once; otherwise boots. */
    static method Create(nodeId: Number, clock: HostClock) returns (r: Result<SnowflakeGenerator, ConfigurationError>)
      modifies clock
      ensures var now := clock.readings(old(clock.position));
              match r
              case Err(BadNodeId) => !IsValidNodeId(nodeId) && clock.position == old(clock.position)
              case Err(ClockBeforeEpoch(t)) => IsValidNodeId(nodeId) && t == now < EPOCH_MS
              case Ok(g) => IsValidNodeId(nodeId) && now >= EPOCH_MS && fresh(g) && g.Valid() && g.State() == BOOTED
                            && g.nodeId as real == nodeId.value && g.clock == clock
      ensures IsValidNodeId(nodeId) ==> clock.position == old(clock.position) + 1
    {
      if !IsInteger(nodeId) || nodeId.value < 0.0 || nodeId.value > 1023.0 {
        return Err(BadNodeId);
      }
      var now := clock.Read();
      if now < EPOCH_MS {
        return Err(ClockBeforeEpoch(now));
      }
      var g := new SnowflakeGenerator(nodeId.value.Floor, clock);
      r := Ok(g);
    }

    /** One id. The only demand on the clock: when this millisecond is used up, a later reading lies ahead. */
    method Next() returns (id: Result<string, int>)
      requires Valid()
      requires Exhausted(State(), clock.readings(clock.position)) ==>
                 exists k :: clock.position < k && clock.readings(k) - EPOCH_MS > lastTimestamp
      modifies this, clock
      ensures Valid() && old(clock.position) < clock.position
      ensures var first := clock.readings(old(clock.position)) - EPOCH_MS;
              if first < old(lastTimestamp) then
                id == Err(old(lastTimestamp) - first) && lastTimestamp == old(lastTimestamp) && sequence == old(sequence)
              else
                && id == Ok(PrintInt(lastTimestamp * 4194304 + nodeId * 4096 + sequence))
                && lastTimestamp == clock.readings(clock.position - 1) - EPOCH_MS
                && sequence == if lastTimestamp > old(lastTimestamp) then 0 else old(sequence) + 1
      ensures var r := Reading(clock.readings(old(clock.position)), clock.readings(clock.position - 1));
              && Waited(old(State()), r)
              && State() == Advance(old(State()), r)
              && id == Answer(old(State()), r, nodeId)
      ensures forall k :: old(clock.position) < k < clock.position - 1 ==>
                clock.readings(k) - EPOCH_MS <= old(lastTimestamp)
      ensures !Exhausted(old(State()), clock.readings(old(clock.position))) ==>
                clock.position == old(clock.position) + 1
    {
      var now := clock.Read();
      var timestamp := now - EPOCH_MS;
      if timestamp < lastTimestamp {
        return Err(lastTimestamp - timestamp);
      }
      if timestamp == lastTimestamp {
        SequenceWraps(sequence);
        sequence := And(sequence + 1, ShiftLeft(1, SEQUENCE_BITS) - 1);
        if sequence == 0 {
          timestamp := WaitForNextMillisecond(timestamp);
        }
      } else {
        sequence := 0;
      }
      lastTimestamp := timestamp;
      assert Fits(nodeId, sequence);
      Layout(timestamp, nodeId, sequence);
      id := Ok(PrintInt(Encode(timestamp, nodeId, sequence)));
    }

    /** Spins; it ends on the first reading past `current`, however the clock dips before that. */
    method WaitForNextMillisecond(current: int) returns (timestamp: int)
      requires exists k :: clock.position <= k && clock.readings(k) - EPOCH_MS > current
      modifies clock
      ensures old(clock.position) < clock.position
      ensures timestamp == clock.readings(clock.position - 1) - EPOCH_MS > current
      ensures forall k :: old(clock.position) <= k < clock.position - 1 ==> clock.readings(k) - EPOCH_MS <= current
    {
      ghost var later :| clock.position <= later && clock.readings(later) - EPOCH_MS > current;
      timestamp := current;
      while timestamp <= current
        invariant old(clock.position) <= clock.position
        invariant timestamp <= current ==> clock.position <= later
        invariant timestamp > current ==>
                    old(clock.position) < clock.position && timestamp == clock.readings(clock.position - 1) - EPOCH_MS
        invariant forall k :: old(clock.position) <= k < clock.position ==>
                    clock.readings(k) - EPOCH_MS <= current || (timestamp > current && k == clock.position - 1)
        decreases later + 1 - clock.position
      {
        var now := clock.Read();
        timestamp := now - EPOCH_MS;
      }
    }
  }

  // ---------------------------------------------------------------- runs

  function After(rs: seq<Reading>): Generator {
    if rs == [] then BOOTED else Advance(After(rs[..|rs| - 1]), rs[|rs| - 1])
  }

  predicate IsRun(rs: seq<Reading>) {
    rs == [] || (IsRun(rs[..|rs| - 1]) && Waited(After(rs[..|rs| - 1]), rs[|rs| - 1]))
  }

  /** What a run has issued, oldest first; a refused call issues nothing. */
  function Issued(rs: seq<Reading>): seq<Slot> {
    if rs == [] then []
    else
      var before := rs[..|rs| - 1];
      if WentBack(After(before), rs[|rs| - 1]) then Issued(before)
      else Issued(before) + [Slot(After(rs).last, After(rs).sequence)]
  }

  predicate Precedes(a: Slot, b: Slot) {
    a.timestamp < b.timestamp || (a.timestamp == b.timestamp && a.sequence < b.sequence)
  }

  function CountAt(slots: seq<Slot>, timestamp: int): nat {
    if slots == [] then 0
    else CountAt(slots[..|slots| - 1], timestamp) + if slots[|slots| - 1].timestamp == timestamp then 1 else 0
  }

  /** Sequence numbers start at 0 in every millisecond but the one before the epoch, where 0 counts as used. */
  function FirstSequence(timestamp: int): nat {
    if timestamp == -1 then 1 else 0
  }

  lemma CountSnoc(slots: seq<Slot>, slot: Slot, timestamp: int)
    ensures CountAt(slots + [slot], timestamp) == CountAt(slots, timestamp) + if slot.timestamp == timestamp then 1 else 0
  {
    assert (slots + [slot])[..|slots|] == slots;
  }

  lemma {:induction false} NoneLater(slots: seq<Slot>, timestamp: int)
    requires forall i :: 0 <= i < |slots| ==> slots[i].timestamp < timestamp
    ensures CountAt(slots, timestamp) == 0
  {
    if slots != [] {
      NoneLater(slots[..|slots| - 1], timestamp);
    }
  }

  /** What the two fields say about the ids issued so far. */
  ghost predicate Remembers(g: Generator, slots: seq<Slot>) {
    && g.sequence < SLOTS_PER_MS
    && g.last >= -1
    && (forall i :: 0 <= i < |slots| ==> -1 <= slots[i].timestamp <= g.last)
    && (if slots == [] then g == BOOTED else Slot(g.last, g.sequence) == slots[|slots| - 1])
    && FirstSequence(g.last) + CountAt(slots, g.last) == g.sequence + 1
  }

  lemma {:induction false} RunRemembers(rs: seq<Reading>)
    requires IsRun(rs)
    ensures Remembers(After(rs), Issued(rs))
  {
    if rs != [] {
      var before, r := rs[..|rs| - 1], rs[|rs| - 1];
      RunRemembers(before);
      if !WentBack(After(before), r) {
        var g := After(rs);
        CountSnoc(Issued(before), Slot(g.last, g.sequence), g.last);
        if g.last > After(before).last {
          NoneLater(Issued(before), g.last);
        }
      }
    }
  }

  /** A call of `next` after a run answers with the slot the longer run has issued last, or issues nothing. */
  lemma AnswerIsIssued(rs: seq<Reading>, r: Reading, node: nat)
    ensures After(rs + [r]) == Advance(After(rs), r)
    ensures WentBack(After(rs), r) ==>
              Issued(rs + [r]) == Issued(rs) && After(rs + [r]) == After(rs) && Answer(After(rs), r, node).Err?
    ensures !WentBack(After(rs), r) ==>
              && |Issued(rs + [r])| == |Issued(rs)| + 1
              && Answer(After(rs), r, node) == Ok(TextOf(Issued(rs + [r])[|Issued(rs)|], node))
  {
    assert (rs + [r])[..|rs|] == rs;
  }

  function TextOf(slot: Slot, node: nat): string {
    PrintInt(Encode(slot.timestamp, node, slot.sequence))
  }

  /** Whatever the clock did, each slot precedes every later one, so one generator's ids only grow. */
  lemma {:induction false} IdsOnlyGrow(rs: seq<Reading>, node: nat, i: nat, j: nat)
    requires IsRun(rs) && node < NODES && i < j < |Issued(rs)|
    ensures Issued(rs)[i].sequence < SLOTS_PER_MS && Issued(rs)[j].sequence < SLOTS_PER_MS
    ensures Precedes(Issued(rs)[i], Issued(rs)[j])
    ensures Encode(Issued(rs)[i].timestamp, node, Issued(rs)[i].sequence)
          < Encode(Issued(rs)[j].timestamp, node, Issued(rs)[j].sequence)
  {
    SlotsOnlyGrow(rs, i, j);
    SequenceCounts(rs, i);
    SequenceCounts(rs, j);
    var a, b := Issued(rs)[i], Issued(rs)[j];
    OrderedByTimestampFirst(a.timestamp, node, a.sequence, b.timestamp, node, b.sequence);
  }

  lemma {:induction false} SlotsOnlyGrow(rs: seq<Reading>, i: nat, j: nat)
    requires IsRun(rs) && i < j < |Issued(rs)|
    ensures Precedes(Issued(rs)[i], Issued(rs)[j])
  {
    var before := rs[..|rs| - 1];
    RunRemembers(before);
    if j < |Issued(before)| {
      SlotsOnlyGrow(before, i, j);
    } else {
      var last := |Issued(before)| - 1;
      assert Precedes(Issued(before)[last], Issued(rs)[j]);
      if i < last {
        SlotsOnlyGrow(before, i, last);
      }
    }
  }

  /** The sequence number of an id is the number of ids issued before it in its millisecond. */
  lemma {:induction false} SequenceCounts(rs: seq<Reading>, i: nat)
    requires IsRun(rs) && i < |Issued(rs)|
    ensures var slot := Issued(rs)[i];
            slot.sequence == FirstSequence(slot.timestamp) + CountAt(Issued(rs)[..i], slot.timestamp) < SLOTS_PER_MS
  {
    var before := rs[..|rs| - 1];
    if i < |Issued(before)| {
      SequenceCounts(before, i);
      assert Issued(rs)[..i] == Issued(before)[..i];
    } else {
      RunRemembers(rs);
      var slots := Issued(rs);
      assert slots == slots[..i] + [slots[i]];
      CountSnoc(slots[..i], slots[i], slots[i].timestamp);
    }
  }

  /** So a millisecond yields at most 4096 ids. */
  lemma {:induction false} AtMost4096PerMillisecond(rs: seq<Reading>, timestamp: int)
    requires IsRun(rs)
    ensures CountAt(Issued(rs), timestamp) <= SLOTS_PER_MS - FirstSequence(timestamp)
  {
    if rs != [] {
      var before := rs[..|rs| - 1];
      AtMost4096PerMillisecond(before, timestamp);
      RunRemembers(rs);
      if |Issued(rs)| > |Issued(before)| {
        CountSnoc(Issued(before), Issued(rs)[|Issued(before)|], timestamp);
      }
    }
  }

  /** The millisecond has no sequence number left. */
  predicate IsFull(slots: seq<Slot>, timestamp: int) {
    CountAt(slots, timestamp) == SLOTS_PER_MS - FirstSequence(timestamp)
  }

  /** The reading that ends up in the id: the first one, or the awaited one when its millisecond was full. */
  function ReadingUsed(slots: seq<Slot>, r: Reading): int {
    if IsFull(slots, r.first - EPOCH_MS) then r.awaited else r.first
  }

  lemma SlotCarriesReading(rs: seq<Reading>, r: Reading)
    requires IsRun(rs) && Waited(After(rs), r) && !WentBack(After(rs), r)
    ensures |Issued(rs + [r])| == |Issued(rs)| + 1
    ensures Issued(rs + [r])[|Issued(rs)|].timestamp == ReadingUsed(Issued(rs), r) - EPOCH_MS
  {
    assert (rs + [r])[..|rs|] == rs;
    FullExactlyWhenExhausted(rs, r);
  }

  lemma FullExactlyWhenExhausted(rs: seq<Reading>, r: Reading)
    requires IsRun(rs) && !WentBack(After(rs), r)
    ensures IsFull(Issued(rs), r.first - EPOCH_MS) == Exhausted(After(rs), r.first)
  {
    RunRemembers(rs);
    if r.first - EPOCH_MS > After(rs).last {
      NoneLater(Issued(rs), r.first - EPOCH_MS);
    }
  }

  /** The call that finds its millisecond full answers from a later one, at sequence 0. */
  lemma FullMillisecondMovesOn(rs: seq<Reading>, r: Reading)
    requires IsRun(rs + [r]) && !WentBack(After(rs), r)
    requires IsFull(Issued(rs), r.first - EPOCH_MS)
    ensures Issued(rs + [r]) == Issued(rs) + [Slot(r.awaited - EPOCH_MS, 0)]
    ensures r.awaited > r.first
  {
    assert (rs + [r])[..|rs|] == rs;
    FullExactlyWhenExhausted(rs, r);
  }

  lemma SlotStays(rs: seq<Reading>, r: Reading, i: nat)
    requires i < |Issued(rs)|
    ensures i < |Issued(rs + [r])| && Issued(rs + [r])[i] == Issued(rs)[i]
  {
    assert (rs + [r])[..|rs|] == rs;
  }

  /** Each id carries the reading of the call that issued it. */
  lemma {:induction false} IdsCarryTheirReadings(rs: seq<Reading>, i: nat) returns (k: nat)
    requires IsRun(rs) && i < |Issued(rs)|
    ensures k < |rs| && IsRun(rs[..k]) && i == |Issued(rs[..k])|
    ensures Issued(rs)[i].timestamp == ReadingUsed(Issued(rs[..k]), rs[k]) - EPOCH_MS
  {
    var before, r := rs[..|rs| - 1], rs[|rs| - 1];
    assert rs == before + [r];
    if i < |Issued(before)| {
      k := IdsCarryTheirReadings(before, i);
      assert before[..k] == rs[..k] && before[k] == rs[k];
      SlotStays(before, r, i);
    } else {
      k := |rs| - 1;
      AnswerIsIssued(before, r, 0);
      SlotCarriesReading(before, r);
      assert rs[..k] == before && i == |Issued(before)|;
    }
  }

  // ---------------------------------------------------------------- several generators

  /** Generators with different node ids never issue the same text, whatever their clocks and call orders. */
  lemma NodesNeverCollide(rs: seq<Reading>, node: nat, i: nat, rs': seq<Reading>, node': nat, j: nat)
    requires IsRun(rs) && IsRun(rs') && node < NODES && node' < NODES
    requires i < |Issued(rs)| && j < |Issued(rs')|
    ensures TextOf(Issued(rs)[i], node) == TextOf(Issued(rs')[j], node') ==>
              node == node' && Issued(rs)[i] == Issued(rs')[j]
  {
    var a, b := Issued(rs)[i], Issued(rs')[j];
    SequenceCounts(rs, i);
    SequenceCounts(rs', j);
    Decodes(a.timestamp, node, a.sequence);
    Decodes(b.timestamp, node', b.sequence);
    if TextOf(a, node) == TextOf(b, node') {
      PrintIntInjective(Encode(a.timestamp, node, a.sequence), Encode(b.timestamp, node', b.sequence));
    }
  }

  /** One generator never issues the same text twice. */
  lemma IdsAreDistinct(rs: seq<Reading>, node: nat, i: nat, j: nat)
    requires IsRun(rs) && node < NODES && i < j < |Issued(rs)|
    ensures TextOf(Issued(rs)[i], node) != TextOf(Issued(rs)[j], node)
  {
    IdsOnlyGrow(rs, node, i, j);
    NodesNeverCollide(rs, node, i, rs, node, j);
  }

  /** Every reading of the one run is earlier than every reading of the other. */
  predicate AllEarlier(rs: seq<Reading>, rs': seq<Reading>) {
    forall k, l :: 0 <= k < |rs| && 0 <= l < |rs'| ==>
      && rs[k].first < rs'[l].first && rs[k].first < rs'[l].awaited
      && rs[k].awaited < rs'[l].first && rs[k].awaited < rs'[l].awaited
  }

  /** A generator restarted with its node id repeats nothing, if its clock has passed every reading taken before. */
  lemma RestartRepeatsNothing(rs: seq<Reading>, rs': seq<Reading>, node: nat, i: nat, j: nat)
    requires IsRun(rs) && IsRun(rs') && AllEarlier(rs, rs') && node < NODES && i < |Issued(rs)| && j < |Issued(rs')|
    ensures TextOf(Issued(rs)[i], node) != TextOf(Issued(rs')[j], node)
  {
    var k := IdsCarryTheirReadings(rs, i);
    var l := IdsCarryTheirReadings(rs', j);
    NodesNeverCollide(rs, node, i, rs', node, j);
  }

  // ---------------------------------------------------------------- calling the generator

  ghost predicate PassesAfter(readings: nat -> int, position: nat, t: int) {
    exists k :: position < k && readings(k) - EPOCH_MS > t
  }

  /** From every position on, the clock gets past every time. */
  ghost predicate GoesOn(readings: nat -> int) {
    forall position, t :: PassesAfter(readings, position, t)
  }

  /** The ids among the answers. */
  function Texts(answers: seq<Result<string, int>>): seq<string> {
    if answers == [] then []
    else
      var last := answers[|answers| - 1];
      Texts(answers[..|answers| - 1]) + if last.Ok? then [last.value] else []
  }

  function TextsOf(slots: seq<Slot>, node: nat): seq<string> {
    seq(|slots|, i requires 0 <= i < |slots| => TextOf(slots[i], node))
  }

  lemma OneMoreCall(answers: seq<Result<string, int>>, rs: seq<Reading>, r: Reading, node: nat)
    requires IsRun(rs) && Waited(After(rs), r) && Texts(answers) == TextsOf(Issued(rs), node)
    ensures IsRun(rs + [r])
    ensures Texts(answers + [Answer(After(rs), r, node)]) == TextsOf(Issued(rs + [r]), node)
  {
    var answer := Answer(After(rs), r, node);
    assert (rs + [r])[..|rs|] == rs && (answers + [answer])[..|answers|] == answers;
    AnswerIsIssued(rs, r, node);
    if answer.Ok? {
      assert TextsOf(Issued(rs + [r]), node) == TextsOf(Issued(rs), node) + [answer.value];
    }
  }

  /** Any number of calls, from boot: the readings they took make a run, their ids are what it issued, and no two are the same. */
  method CallNext(g: SnowflakeGenerator, n: nat) returns (answers: seq<Result<string, int>>, ghost rs: seq<Reading>)
    requires g.Valid() && g.State() == BOOTED && GoesOn(g.clock.readings)
    modifies g, g.clock
    ensures g.Valid() && |answers| == |rs| == n
    ensures IsRun(rs) && g.State() == After(rs)
    ensures Texts(answers) == TextsOf(Issued(rs), g.nodeId)
    ensures forall i, j :: 0 <= i < j < |Texts(answers)| ==> Texts(answers)[i] != Texts(answers)[j]
  {
    answers, rs := [], [];
    while |answers| < n
      invariant g.Valid() && |answers| == |rs| <= n
      invariant IsRun(rs) && g.State() == After(rs)
      invariant Texts(answers) == TextsOf(Issued(rs), g.nodeId)
    {
      ghost var position := g.clock.position;
      assert PassesAfter(g.clock.readings, position, g.lastTimestamp);
      var answer := g.Next();
      ghost var r := Reading(g.clock.readings(position), g.clock.readings(g.clock.position - 1));
      OneMoreCall(answers, rs, r, g.nodeId);
      AnswerIsIssued(rs, r, g.nodeId);
      answers, rs := answers + [answer], rs + [r];
    }
    forall i, j | 0 <= i < j < |Texts(answers)|
      ensures Texts(answers)[i] != Texts(answers)[j]
    {
      IdsAreDistinct(rs, g.nodeId, i, j);
    }
  }

  // ---------------------------------------------------------------- the millisecond before the epoch

  /** The first reading the generator accepts lies one millisecond before the epoch. */
  predicate OpensBeforeEpoch(rs: seq<Reading>) {
    rs != [] && (rs[0].first == EPOCH_MS - 1 || (rs[0].first < EPOCH_MS - 1 && OpensBeforeEpoch(rs[1..])))
  }

  /** Negative ids come from exactly that reading: the boot value of `lastTimestamp` lets it through. */
  lemma {:induction false} NegativeIdsExactlyWhen(rs: seq<Reading>, node: nat)
    requires IsRun(rs) && node < NODES
    ensures OpensBeforeEpoch(rs) <==>
              exists i :: 0 <= i < |Issued(rs)| && Encode(Issued(rs)[i].timestamp, node, Issued(rs)[i].sequence) < 0
  {
    FirstSlot(rs);
    if OpensBeforeEpoch(rs) {
      FitsBelowZero(rs, node, 0);
    }
    forall i | 0 <= i < |Issued(rs)|
      ensures Encode(Issued(rs)[i].timestamp, node, Issued(rs)[i].sequence) < 0 ==> OpensBeforeEpoch(rs)
    {
      FitsBelowZero(rs, node, i);
      FitsBelowZero(rs, node, 0);
      if i > 0 {
        SlotsOnlyGrow(rs, 0, i);
      }
    }
  }

  lemma FitsBelowZero(rs: seq<Reading>, node: nat, i: nat)
    requires IsRun(rs) && node < NODES && i < |Issued(rs)|
    ensures Encode(Issued(rs)[i].timestamp, node, Issued(rs)[i].sequence) < 0 <==> Issued(rs)[i].timestamp < 0
    ensures Issued(rs)[i].timestamp >= -1
  {
    SequenceCounts(rs, i);
    Layout(Issued(rs)[i].timestamp, node, Issued(rs)[i].sequence);
    RunRemembers(rs);
  }

  lemma {:induction false} NothingIssued(rs: seq<Reading>)
    requires IsRun(rs)
    ensures Issued(rs) == [] <==> forall k :: 0 <= k < |rs| ==> rs[k].first < EPOCH_MS - 1
  {
    if rs != [] {
      var before := rs[..|rs| - 1];
      NothingIssued(before);
      RunRemembers(before);
      assert forall k :: 0 <= k < |before| ==> before[k] == rs[k];
    }
  }

  lemma {:induction false} FirstSlot(rs: seq<Reading>)
    requires IsRun(rs)
    ensures OpensBeforeEpoch(rs) <==> Issued(rs) != [] && Issued(rs)[0].timestamp == -1
  {
    if rs != [] {
      var before, r := rs[..|rs| - 1], rs[|rs| - 1];
      FirstSlot(before);
      NothingIssued(before);
      OpensSnoc(before, r);
      assert rs == before + [r];
      if Issued(before) == [] {
        FirstAnswer(before, r);
      } else {
        SlotStays(before, r, 0);
      }
    }
  }

  lemma FirstAnswer(rs: seq<Reading>, r: Reading)
    requires IsRun(rs) && Issued(rs) == []
    ensures Issued(rs + [r]) != [] && Issued(rs + [r])[0].timestamp == -1 <==> r.first == EPOCH_MS - 1
  {
    RunRemembers(rs);
    AnswerIsIssued(rs, r, 0);
  }

  lemma {:induction false} OpensSnoc(rs: seq<Reading>, r: Reading)
    ensures OpensBeforeEpoch(rs + [r]) <==>
              OpensBeforeEpoch(rs)
              || ((forall k :: 0 <= k < |rs| ==> rs[k].first < EPOCH_MS - 1) && r.first == EPOCH_MS - 1)
  {
    if rs != [] {
      OpensSnoc(rs[1..], r);
      assert (rs + [r])[1..] == rs[1..] + [r];
    }
  }

  /** A host that boots at the epoch and steps back one millisecond gets a negative id. */
  lemma NegativeId(node: nat)
    requires node < NODES
    ensures var r := Reading(EPOCH_MS - 1, 0);
            IsRun([r]) && Issued([r]) == [Slot(-1, 1)] && Encode(-1, node, 1) == -4194304 + node * 4096 + 1 < 0
  {
    var r := Reading(EPOCH_MS - 1, 0);
    assert [r][..0] == [];
    Layout(-1, node, 1);
  }
}
