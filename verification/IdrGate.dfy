/** The IDR gate in front of the RTSP sink (CamFramedSource.cc). */
module IdrGate {
  type Frame = seq<bv8>

  // ---- recognising a NAL unit type -------------------------------------------------------

  /** A three-byte start code ends at p. A four-byte code ends in one. */
  predicate CodeEnds(data: Frame, p: int) {
    3 <= p <= |data| && data[p - 3] == 0 && data[p - 2] == 0 && data[p - 1] == 1
  }

  /** A start code ends at p and a byte follows. */
  predicate CodeBefore(data: Frame, p: int) {
    p < |data| && CodeEnds(data, p)
  }

  /** nal_unit_type of a header byte (section 7.3.1 of ITU-T H.264). */
  function NalType(header: bv8): bv8 { header & 0x1f }

  /** Whatever nal_ref_idc a header carries, its type is read back. */
  lemma HeaderType(refIdc: bv8, unitType: bv8)
    requires refIdc < 4 && unitType < 32
    ensures NalType((refIdc << 5) | unitType) == unitType
  {
  }

  /** The header of a unit of the type sits at p: offset 0, or behind a start code. */
  ghost predicate HeaderAt(data: Frame, target: bv8, p: int) {
    0 <= p < |data| && NalType(data[p]) == target && (p == 0 || CodeBefore(data, p))
  }

  ghost predicate HasNal(data: Frame, target: bv8) {
    exists p :: HeaderAt(data, target, p)
  }

  /** `hasNaluType`, with its two start-code forms and its bounds. */
  method HasNaluType(data: Frame, target: bv8) returns (found: bool)
    ensures found <==> HasNal(data, target)
  {
    if data == [] { return false; }
    if data[0] & 0x1f == target {
      assert HeaderAt(data, target, 0);
      return true;
    }
    var i := 0;
    while i + 3 < |data|
      invariant 0 <= i
      invariant forall p :: 0 <= p < i + 3 ==> !HeaderAt(data, target, p)
    {
      var nalPos := |data|;
      if data[i] == 0 && data[i + 1] == 0 && data[i + 2] == 1 {
        nalPos := i + 3;
      } else if i + 4 < |data| && data[i] == 0 && data[i + 1] == 0 && data[i + 2] == 0 && data[i + 3] == 1 {
        nalPos := i + 4;
      }
      if nalPos < |data| && data[nalPos] & 0x1f == target {
        assert HeaderAt(data, target, nalPos);
        return true;
      }
      i := i + 1;
    }
    return false;
  }

  // ---- on Annex B byte streams -------------------------------------------------------------

  /** A NAL unit in a byte stream, with or without the extra zero byte in front. */
  datatype Unit = Unit(zeroByte: bool, payload: Frame)

  function Prefix(u: Unit): Frame { if u.zeroByte then [0, 0, 0, 1] else [0, 0, 1] }

  function ByteStream(units: seq<Unit>): Frame {
    if units == [] then [] else Prefix(units[0]) + units[0].payload + ByteStream(units[1..])
  }

  /** Emulation prevention keeps start codes out of units (section 7.4.1 of ITU-T H.264). */
  ghost predicate Clean(u: Unit) {
    |u.payload| > 0 && forall p :: 0 <= p <= |u.payload| ==> !CodeEnds(u.payload, p)
  }

  ghost predicate AllClean(units: seq<Unit>) {
    forall k :: 0 <= k < |units| ==> Clean(units[k])
  }

  /** In a unit followed by nothing or by another start code, the codes are the unit's own and
      those that follow. */
  lemma CodesOfUnit(u: Unit, rest: Frame, p: int)
    requires Clean(u) && (rest == [] || (|rest| > 2 && rest[0] == 0 && rest[1] == 0))
    ensures var n := |Prefix(u)|;
            CodeBefore(Prefix(u) + u.payload + rest, p) <==> p == n || CodeBefore(rest, p - n - |u.payload|)
  {
    var pre := Prefix(u);
    var n, head := |pre|, |pre| + |u.payload|;
    var data := pre + u.payload + rest;
    if p <= n + 2 {
      assert forall k :: 0 <= k < n ==> data[k] == pre[k];
    } else if p <= head {
      assert !CodeEnds(u.payload, p - n);
      assert data[p - 3] == u.payload[p - n - 3] && data[p - 2] == u.payload[p - n - 2];
      assert data[p - 1] == u.payload[p - n - 1];
    } else if p < |data| && p < head + 3 {
      assert data[p - 1] == rest[p - 1 - head];
    } else if p < |data| {
      assert data[p - 3] == rest[p - 3 - head] && data[p - 2] == rest[p - 2 - head];
      assert data[p - 1] == rest[p - 1 - head];
    }
  }

  lemma {:induction false} CodesOfStream(units: seq<Unit>, p: int)
    requires units != [] && AllClean(units)
    ensures var head := |Prefix(units[0])| + |units[0].payload|;
            CodeBefore(ByteStream(units), p)
            <==> p == |Prefix(units[0])| || CodeBefore(ByteStream(units[1..]), p - head)
  {
    var rest := ByteStream(units[1..]);
    if |units| > 1 {
      assert rest == Prefix(units[1]) + (units[1].payload + ByteStream(units[1..][1..]));
    }
    CodesOfUnit(units[0], rest, p);
  }

  /** What the transcoder hands over: a byte stream without its first start code. */
  function FrameOf(units: seq<Unit>): Frame
    requires units != []
  {
    units[0].payload + ByteStream(units[1..])
  }

  lemma CodeBehind(pre: Frame, data: Frame, p: int)
    requires p >= 3
    ensures CodeBefore(pre + data, |pre| + p) <==> CodeBefore(data, p)
  {
    if p < |data| {
      var all, n := pre + data, |pre|;
      assert all[n + p - 3] == data[p - 3] && all[n + p - 2] == data[p - 2] && all[n + p - 1] == data[p - 1];
    }
  }

  lemma CodesOfFrame(units: seq<Unit>, p: int)
    requires units != [] && AllClean(units)
    ensures CodeBefore(FrameOf(units), p) <==> CodeBefore(ByteStream(units[1..]), p - |units[0].payload|)
  {
    if p >= 3 {
      var pre := Prefix(units[0]);
      assert ByteStream(units) == pre + FrameOf(units);
      CodeBehind(pre, FrameOf(units), p);
      CodesOfStream(units, |pre| + p);
    }
  }

  ghost predicate SomeUnit(units: seq<Unit>, target: bv8) {
    exists k :: 0 <= k < |units| && |units[k].payload| > 0 && NalType(units[k].payload[0]) == target
  }

  /** On every frame of clean units the scan finds exactly the types of its units. */
  lemma TypesOfFrame(units: seq<Unit>, target: bv8)
    requires units != [] && AllClean(units)
    ensures HasNal(FrameOf(units), target) <==> SomeUnit(units, target)
  {
    if HasNal(FrameOf(units), target) {
      var p :| HeaderAt(FrameOf(units), target, p);
      HeaderMeansUnit(units, target, p);
    }
    if SomeUnit(units, target) {
      var k :| 0 <= k < |units| && |units[k].payload| > 0 && NalType(units[k].payload[0]) == target;
      UnitMeansHeader(units, target, k);
    }
  }

  lemma HeaderMeansUnit(units: seq<Unit>, target: bv8, p: int)
    requires units != [] && AllClean(units) && HeaderAt(FrameOf(units), target, p)
    ensures SomeUnit(units, target)
  {
    var rest, n := units[1..], |units[0].payload|;
    if p == 0 {
      assert NalType(units[0].payload[0]) == target;
    } else {
      CodesOfFrame(units, p);
      var k := CodeHasUnit(rest, p - n);
      assert FrameOf(units)[p] == ByteStream(rest)[p - n];
      assert NalType(units[k + 1].payload[0]) == target;
    }
  }

  lemma UnitMeansHeader(units: seq<Unit>, target: bv8, k: nat)
    requires k < |units| && AllClean(units) && |units[k].payload| > 0 && NalType(units[k].payload[0]) == target
    ensures HasNal(FrameOf(units), target)
  {
    var data, rest, n := FrameOf(units), units[1..], |units[0].payload|;
    if k == 0 {
      assert HeaderAt(data, target, 0);
    } else {
      var p := UnitHasHeader(rest, k - 1);
      CodesOfFrame(units, p + n);
      assert data[p + n] == ByteStream(rest)[p];
      assert HeaderAt(data, target, p + n);
    }
  }

  lemma {:induction false} CodeHasUnit(units: seq<Unit>, p: int) returns (k: nat)
    requires AllClean(units) && CodeBefore(ByteStream(units), p)
    ensures k < |units| && ByteStream(units)[p] == units[k].payload[0]
  {
    var u, data := units[0], ByteStream(units);
    var n, head := |Prefix(u)|, |Prefix(u)| + |u.payload|;
    assert data == Prefix(u) + (u.payload + ByteStream(units[1..]));
    CodesOfStream(units, p);
    if p == n {
      k := 0;
    } else {
      var later := CodeHasUnit(units[1..], p - head);
      assert data[p] == ByteStream(units[1..])[p - head] && units[later + 1] == units[1..][later];
      k := later + 1;
    }
  }

  lemma {:induction false} UnitHasHeader(units: seq<Unit>, k: nat) returns (p: int)
    requires k < |units| && AllClean(units)
    ensures CodeBefore(ByteStream(units), p) && ByteStream(units)[p] == units[k].payload[0]
  {
    var u, data := units[0], ByteStream(units);
    assert data == Prefix(u) + (u.payload + ByteStream(units[1..]));
    if k == 0 {
      p := |Prefix(u)|;
      CodesOfStream(units, p);
    } else {
      var q := UnitHasHeader(units[1..], k - 1);
      p := q + |Prefix(u)| + |u.payload|;
      CodesOfStream(units, p);
    }
  }

  // ---- the gate, step by step --------------------------------------------------------------

  const IDR: bv8 := 5

  /** Where the encoder thread stands in `onEncodedData`. */
  datatype Place = Idle | Entered | Dropping | Awaited | Scanning | Clearing | Pushing

  /** The shared state; `encoded`, `taken` (positions in `encoded`) and `delivered` record the run. */
  datatype State = State(place: Place, waitForIdr: bool, buffer: seq<Frame>,
                         encoded: seq<Frame>, taken: seq<nat>, delivered: seq<Frame>)

  datatype Step =
    | Encode(data: Frame)   // the encoder calls back with a frame
    | Await(awaiting: bool) // the first test
    | Drop                  // nobody is awaiting: close the gate
    | TestGate
    | Scan
    | OpenGate
    | Push
    | Deliver               // the event loop hands a frame to an awaiting sink
    | Stop                  // the event loop closes the gate

  ghost function Initial(): State { State(Idle, true, [], [], [], []) }

  /** The frame the encoder thread is working on. */
  ghost predicate CurrentIsIdr(s: State) {
    s.encoded != [] && HasNal(s.encoded[|s.encoded| - 1], IDR)
  }

  ghost predicate Enabled(s: State, step: Step) {
    match step
    case Encode(_) => s.place.Idle?
    case Await(_) => s.place.Entered?
    case Drop => s.place.Dropping?
    case TestGate => s.place.Awaited?
    case Scan => s.place.Scanning?
    case OpenGate => s.place.Clearing?
    case Push => s.place.Pushing?
    case Deliver => s.buffer != []
    case Stop => true
  }

  ghost predicate CanStep(s: State, step: Step) {
    Enabled(s, step) && (s.place.Idle? || s.encoded != [])
  }

  ghost function After(s: State, step: Step): State
    requires CanStep(s, step)
  {
    match step
    case Encode(data) => s.(place := Entered, encoded := s.encoded + [data])
    case Await(awaiting) => s.(place := if awaiting then Awaited else Dropping)
    case Drop => s.(place := Idle, waitForIdr := true)
    case TestGate => s.(place := if s.waitForIdr then Scanning else Pushing)
    case Scan => s.(place := if CurrentIsIdr(s) then Clearing else Idle)
    case OpenGate => s.(place := Pushing, waitForIdr := false)
    case Push =>
      var last := |s.encoded| - 1;
      s.(place := Idle, buffer := s.buffer + [s.encoded[last]], taken := s.taken + [last])
    case Deliver => s.(buffer := s.buffer[1..], delivered := s.delivered + [s.buffer[0]])
    case Stop => s.(waitForIdr := true)
  }

  /** The frames at the given positions. */
  ghost function FramesAt(encoded: seq<Frame>, taken: seq<nat>): seq<Frame>
    requires forall k :: 0 <= k < |taken| ==> taken[k] < |encoded|
  {
    seq(|taken|, k requires 0 <= k < |taken| => encoded[taken[k]])
  }

  /** The last frame taken is the one `back` places before the end of the encoder's output. */
  ghost predicate Caught(s: State, back: nat) {
    s.taken != [] && s.taken[|s.taken| - 1] == |s.encoded| - 1 - back
  }

  /** What an open gate and each place promise. */
  ghost predicate PlaceFits(s: State) {
    (!s.place.Idle? ==> s.encoded != [])
    && match s.place
       case Idle => !s.waitForIdr ==> Caught(s, 0)
       case Entered => !s.waitForIdr ==> Caught(s, 1)
       case Dropping => true
       case Awaited => !s.waitForIdr ==> Caught(s, 1)
       case Scanning => s.waitForIdr
       case Clearing => CurrentIsIdr(s)
       case Pushing => Caught(s, 1) || CurrentIsIdr(s)
  }

  /** The k-th frame taken directly follows the one before it, or is IDR. */
  ghost predicate Joins(encoded: seq<Frame>, taken: seq<nat>, k: int) {
    0 <= k < |taken| && taken[k] < |encoded|
    && ((k > 0 && taken[k] == taken[k - 1] + 1) || HasNal(encoded[taken[k]], IDR))
  }

  /** Frames are taken in encoder order, and one that does not follow its predecessor is IDR. */
  ghost predicate NoGaps(s: State) {
    (forall k :: 0 <= k < |s.taken| ==> s.taken[k] < |s.encoded|)
    && (forall j, k :: 0 <= j < k < |s.taken| ==> s.taken[j] < s.taken[k])
    && forall k :: 0 <= k < |s.taken| ==> Joins(s.encoded, s.taken, k)
  }

  /** What was delivered and what waits are together the frames taken, in order. */
  ghost predicate InOrder(s: State)
    requires NoGaps(s)
  {
    s.delivered + s.buffer == FramesAt(s.encoded, s.taken)
  }

  /** The frame in hand is not taken yet. */
  ghost predicate Untaken(s: State) {
    !s.place.Idle? ==> forall k :: 0 <= k < |s.taken| ==> s.taken[k] < |s.encoded| - 1
  }

  ghost predicate Inv(s: State) {
    PlaceFits(s) && NoGaps(s) && InOrder(s) && Untaken(s)
  }

  lemma StepKeepsPlace(s: State, step: Step)
    requires PlaceFits(s) && CanStep(s, step)
    ensures PlaceFits(After(s, step))
  {
  }

  lemma StepKeepsGaps(s: State, step: Step)
    requires PlaceFits(s) && NoGaps(s) && Untaken(s) && CanStep(s, step)
    ensures NoGaps(After(s, step)) && Untaken(After(s, step))
  {
    var t := After(s, step);
    assert t.encoded[..|s.encoded|] == s.encoded;
    forall k | 0 <= k < |s.taken| ensures Joins(t.encoded, t.taken, k) {
      assert Joins(s.encoded, s.taken, k);
    }
  }

  lemma StepKeepsOrder(s: State, step: Step)
    requires NoGaps(s) && InOrder(s) && CanStep(s, step) && NoGaps(After(s, step))
    ensures InOrder(After(s, step))
  {
    var t := After(s, step);
    if step.Encode? {
      assert FramesAt(t.encoded, t.taken) == FramesAt(s.encoded, s.taken);
    } else if step.Push? {
      assert FramesAt(t.encoded, t.taken) == FramesAt(s.encoded, s.taken) + [s.encoded[|s.encoded| - 1]];
      assert t.delivered + t.buffer == s.delivered + s.buffer + [s.encoded[|s.encoded| - 1]];
    } else if step.Deliver? {
      assert t.delivered + t.buffer == s.delivered + s.buffer;
    }
  }

  lemma StepKeepsInv(s: State, step: Step)
    requires Inv(s) && CanStep(s, step)
    ensures Inv(After(s, step))
  {
    StepKeepsPlace(s, step);
    StepKeepsGaps(s, step);
    StepKeepsOrder(s, step);
  }

  lemma InitialInv()
    ensures Inv(Initial())
  {
    var s := Initial();
    assert s.delivered + s.buffer == FramesAt(s.encoded, s.taken);
  }

  /** A run: any interleaving of enabled steps. */
  ghost predicate Run(states: seq<State>, steps: seq<Step>) {
    |states| == |steps| + 1 && states[0] == Initial()
    && forall k :: 0 <= k < |steps| ==>
         CanStep(states[k], steps[k]) && states[k + 1] == After(states[k], steps[k])
  }

  lemma {:induction false} RunKeepsInv(states: seq<State>, steps: seq<Step>, k: nat)
    requires Run(states, steps) && k < |states|
    ensures Inv(states[k])
  {
    if k == 0 {
      InitialInv();
    } else {
      RunKeepsInv(states, steps, k - 1);
      StepKeepsInv(states[k - 1], steps[k - 1]);
    }
  }

  /** In every run, at every point: the delivered stream is the encoder's frames at rising
      positions, first taken first delivered, and each delivered frame either directly follows
      the one delivered before it in the encoder's output or is an IDR frame. */
  lemma DeliveredStream(states: seq<State>, steps: seq<Step>, k: nat) returns (at: seq<nat>)
    requires Run(states, steps) && k < |states|
    ensures |at| == |states[k].delivered| && at <= states[k].taken
    ensures forall i :: 0 <= i < |at| ==>
              at[i] < |states[k].encoded| && states[k].delivered[i] == states[k].encoded[at[i]]
    ensures forall i, j :: 0 <= i < j < |at| ==> at[i] < at[j]
    ensures forall i :: 0 <= i < |at| ==> Joins(states[k].encoded, at, i)
  {
    RunKeepsInv(states, steps, k);
    var s := states[k];
    var all := s.delivered + s.buffer;
    assert all == FramesAt(s.encoded, s.taken);
    assert |all| == |s.taken|;
    at := s.taken[..|s.delivered|];
    forall i | 0 <= i < |at|
      ensures at[i] == s.taken[i] && s.delivered[i] == s.encoded[at[i]]
    {
      assert s.delivered[i] == all[i] == FramesAt(s.encoded, s.taken)[i];
    }
    forall i | 0 <= i < |at| ensures Joins(s.encoded, at, i) {
      assert Joins(s.encoded, s.taken, i);
    }
  }

  // ---- the source object -------------------------------------------------------------------

  datatype Option<T> = None | Some(value: T)

  /** Where the steps lead with nothing in between, if each can be taken. */
  ghost function Final(s: State, steps: seq<Step>): Option<State> {
    var n := |steps|;
    if n == 0 then Some(s)
    else
      match Final(s, steps[..n - 1])
      case None => None
      case Some(t) => if CanStep(t, steps[n - 1]) then Some(After(t, steps[n - 1])) else None
  }

  lemma {:induction false} FinalKeepsInv(s: State, steps: seq<Step>)
    requires Inv(s) && Final(s, steps).Some?
    ensures Inv(Final(s, steps).value)
  {
    if steps != [] {
      FinalKeepsInv(s, steps[..|steps| - 1]);
      StepKeepsInv(Final(s, steps[..|steps| - 1]).value, steps[|steps| - 1]);
    }
  }

  lemma Then(s: State, sofar: seq<Step>, t: State, step: Step)
    requires Final(s, sofar) == Some(t) && CanStep(t, step)
    ensures Final(s, sofar + [step]) == Some(After(t, step))
  {
    assert (sofar + [step])[..|sofar|] == sofar;
  }

  /** The sink awaits data and the gate is open, or the frame opens it. */
  ghost predicate Through(s: State, data: Frame, awaiting: bool) {
    awaiting && (!s.waitForIdr || HasNal(data, IDR))
  }

  /** The steps `onEncodedData` takes, by its branches. */
  ghost function Passage(s: State, data: Frame, awaiting: bool): seq<Step> {
    if !awaiting then [Encode(data), Await(false), Drop]
    else if !s.waitForIdr then [Encode(data), Await(true), TestGate, Push]
    else if !HasNal(data, IDR) then [Encode(data), Await(true), TestGate, Scan]
    else [Encode(data), Await(true), TestGate, Scan, OpenGate, Push]
  }

  /** They lead back to rest, with the frame let through or dropped. */
  lemma PassageLeads(s: State, data: Frame, awaiting: bool) returns (t: State)
    requires s.place.Idle?
    ensures Final(s, Passage(s, data, awaiting)) == Some(t)
    ensures t == s.(waitForIdr := !Through(s, data, awaiting), encoded := s.encoded + [data],
                    buffer := if Through(s, data, awaiting) then s.buffer + [data] else s.buffer,
                    taken := if Through(s, data, awaiting) then s.taken + [|s.encoded|] else s.taken)
  {
    var steps := Passage(s, data, awaiting);
    t := s;
    var i := 0;
    assert steps[..0] == [];
    while i < |steps|
      invariant 0 <= i <= |steps| && Final(s, steps[..i]) == Some(t)
      invariant i == 0 ==> t == s
      invariant i == 1 ==> t == s.(place := Entered, encoded := s.encoded + [data])
      invariant i == 2 ==> t == s.(place := if awaiting then Awaited else Dropping, encoded := s.encoded + [data])
      invariant i == 3 && awaiting ==>
                  t == s.(place := if s.waitForIdr then Scanning else Pushing, encoded := s.encoded + [data])
      invariant i == 4 && steps[3].Scan? ==>
                  t == s.(place := if HasNal(data, IDR) then Clearing else Idle, encoded := s.encoded + [data])
      invariant i == 5 ==> t == s.(place := Pushing, waitForIdr := false, encoded := s.encoded + [data])
      invariant i > 2 && i == |steps| ==>
                  t == s.(waitForIdr := !Through(s, data, awaiting), encoded := s.encoded + [data],
                          buffer := if Through(s, data, awaiting) then s.buffer + [data] else s.buffer,
                          taken := if Through(s, data, awaiting) then s.taken + [|s.encoded|] else s.taken)
    {
      Then(s, steps[..i], t, steps[i]);
      assert steps[..i] + [steps[i]] == steps[..i + 1];
      t := After(t, steps[i]);
      i := i + 1;
    }
    assert steps[..|steps|] == steps;
  }

  class CamFramedSource {
    var waitForIdr: bool
    var encodedDataBuffer: seq<Frame>
    ghost var state: State

    ghost predicate Valid()
      reads this
    {
      state.place.Idle? && state.waitForIdr == waitForIdr && state.buffer == encodedDataBuffer && Inv(state)
    }

    constructor ()
      ensures Valid() && state == Initial()
    {
      waitForIdr, encodedDataBuffer, state := true, [], Initial();
      new;
      InitialInv();
    }

    /** `onEncodedData` takes the steps of the machine, and lets a frame through exactly when the
        sink awaits data and the gate is open or the frame is IDR. */
    method OnEncodedData(data: Frame, awaiting: bool)
      requires Valid()
      modifies this
      ensures Valid() && Final(old(state), Passage(old(state), data, awaiting)) == Some(state)
      ensures state.encoded == old(state.encoded) + [data] && state.delivered == old(state.delivered)
      ensures var through := awaiting && (!old(waitForIdr) || HasNal(data, IDR));
              waitForIdr == !through
              && encodedDataBuffer == if through then old(encodedDataBuffer) + [data] else old(encodedDataBuffer)
    {
      ghost var s := state;
      state := PassageLeads(s, data, awaiting);
      FinalKeepsInv(s, Passage(s, data, awaiting));
      if !awaiting {
        waitForIdr := true;
        return;
      }
      if waitForIdr {
        var idr := HasNaluType(data, 5);
        if !idr { return; }
        waitForIdr := false;
      }
      encodedDataBuffer := encodedDataBuffer + [data];
    }

    /** `deliverData` copies at most maxSize bytes of the oldest frame to a sink that awaits, and
        counts the rest as truncated. `ok` is false where the source takes the front of an empty
        buffer, exactly when data is awaited and none is there; the model then changes nothing. */
    method DeliverData(awaiting: bool, maxSize: nat) returns (ok: bool, to: Option<Frame>, truncated: nat)
      requires Valid()
      modifies this
      ensures Valid() && waitForIdr == old(waitForIdr) && state.taken == old(state.taken)
      ensures state.encoded == old(state.encoded)
      ensures ok <==> !awaiting || old(encodedDataBuffer) != []
      ensures !awaiting || !ok ==> to == None && encodedDataBuffer == old(encodedDataBuffer) && state == old(state)
      ensures awaiting && ok ==>
                [old(encodedDataBuffer)[0]] + encodedDataBuffer == old(encodedDataBuffer)
                && state.delivered == old(state.delivered) + [old(encodedDataBuffer)[0]]
      ensures awaiting && ok ==> to.Some? && to.value <= old(encodedDataBuffer)[0] && |to.value| <= maxSize
      ensures awaiting && ok ==> |to.value| + truncated == |old(encodedDataBuffer)[0]|
      ensures awaiting && ok && truncated > 0 ==> |to.value| == maxSize
      ensures to == None ==> truncated == 0
    {
      if !awaiting { return true, None, 0; }
      if encodedDataBuffer == [] { return false, None, 0; }
      ok := true;
      var data := encodedDataBuffer[0];
      encodedDataBuffer := encodedDataBuffer[1..];
      StepKeepsInv(state, Deliver);
      state := After(state, Deliver);
      if |data| > maxSize {
        to, truncated := Some(data[..maxSize]), |data| - maxSize;
      } else {
        to, truncated := Some(data), 0;
      }
    }

    /** `doGetNextFrame`. */
    method DoGetNextFrame(awaiting: bool, maxSize: nat) returns (to: Option<Frame>, truncated: nat)
      requires Valid()
      modifies this
      ensures Valid() && waitForIdr == old(waitForIdr)
      ensures to.Some? <==> awaiting && old(encodedDataBuffer) != []
      ensures state.delivered + encodedDataBuffer == old(state.delivered + encodedDataBuffer)
      ensures state.encoded == old(state.encoded)
      ensures |state.delivered| == |old(state.delivered)| + if to.Some? then 1 else 0
      ensures to.Some? ==> to.value <= old(encodedDataBuffer)[0] && |to.value| <= maxSize
      ensures to.Some? ==> |to.value| + truncated == |old(encodedDataBuffer)[0]|
      ensures to.Some? && truncated > 0 ==> |to.value| == maxSize
      ensures to.Some? ==> [old(encodedDataBuffer)[0]] + encodedDataBuffer == old(encodedDataBuffer)
      ensures to == None ==> truncated == 0 && state == old(state) && encodedDataBuffer == old(encodedDataBuffer)
    {
      if encodedDataBuffer != [] {
        var ok;
        ok, to, truncated := DeliverData(awaiting, maxSize);
      } else {
        to, truncated := None, 0;
      }
    }

    /** `doStopGettingFrames`. */
    method DoStopGettingFrames()
      requires Valid()
      modifies this
      ensures Valid() && waitForIdr && encodedDataBuffer == old(encodedDataBuffer)
      ensures state == old(state).(waitForIdr := true)
    {
      waitForIdr := true;
      StepKeepsInv(state, Stop);
      state := After(state, Stop);
    }
  }

  /** The event of a frame may come after the frame is gone: accepted, handed over by
      doGetNextFrame, and awaited again by a sink that finds nothing, it leaves the event handler
      with an empty buffer. */
  method LateEvent(data: Frame, maxSize: nat) returns (source: CamFramedSource, ok: bool, ghost before: State)
    requires HasNal(data, IDR)
    ensures source.Valid() && source.state == before && before.encoded == before.delivered == [data]
    ensures !ok && source.encodedDataBuffer == []
  {
    source := new CamFramedSource();
    source.OnEncodedData(data, true);
    assert source.encodedDataBuffer == [data] && source.state.delivered == [];
    var to, truncated := source.DoGetNextFrame(true, maxSize);
    assert source.state.delivered + source.encodedDataBuffer == [data] && |source.state.delivered| == 1;
    to, truncated := source.DoGetNextFrame(true, maxSize);
    before := source.state;
    ok, to, truncated := source.DeliverData(true, maxSize);
  }
}
