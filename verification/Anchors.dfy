/** Hash anchors of released work: idempotent inserts, interleaved and failing calls, self-healing
    and the integrity check, while artifacts are deleted and deals leave released. The hash function
    and the stored content are parameters; a stored blob never changes while its row exists, but
    reading it may fail. */
module Anchors {
  import opened Results

  type Bytes = seq<bv8>

  type Hasher = Bytes -> Bytes

  datatype Artifact = Artifact(id: nat, storageKey: nat)

  predicate Readable(blobs: map<nat, Bytes>, todo: seq<Artifact>) {
    forall i :: 0 <= i < |todo| ==> todo[i].storageKey in blobs
  }

  function InsertIfAbsent(anchors: map<nat, Bytes>, id: nat, hash: Bytes): map<nat, Bytes> {
    if id in anchors then anchors else anchors[id := hash]
  }

  function AnchorAll(h: Hasher, blobs: map<nat, Bytes>, anchors: map<nat, Bytes>, todo: seq<Artifact>): map<nat, Bytes>
    requires Readable(blobs, todo)
    decreases |todo|
  {
    if todo == [] then anchors
    else
      assert todo[0].storageKey in blobs;
      assert Readable(blobs, todo[1..]) by { assert forall i :: 0 <= i < |todo[1..]| ==> todo[1..][i] == todo[i + 1]; }
      AnchorAll(h, blobs, InsertIfAbsent(anchors, todo[0].id, h(blobs[todo[0].storageKey])), todo[1..])
  }

  lemma {:induction false} AnchorAllAppend(h: Hasher, blobs: map<nat, Bytes>, anchors: map<nat, Bytes>,
                                           xs: seq<Artifact>, a: Artifact)
    requires Readable(blobs, xs) && a.storageKey in blobs
    ensures Readable(blobs, xs + [a])
    ensures AnchorAll(h, blobs, anchors, xs + [a])
            == InsertIfAbsent(AnchorAll(h, blobs, anchors, xs), a.id, h(blobs[a.storageKey]))
    decreases |xs|
  {
    if xs == [] {
      assert [] + [a] == [a];
    } else {
      assert (xs + [a])[1..] == xs[1..] + [a];
      assert xs[0].storageKey in blobs && (xs + [a])[0] == xs[0];
      AnchorAllAppend(h, blobs, InsertIfAbsent(anchors, xs[0].id, h(blobs[xs[0].storageKey])), xs[1..], a);
    }
  }

  lemma {:induction false} AnchorAllCovers(h: Hasher, blobs: map<nat, Bytes>, anchors: map<nat, Bytes>,
                                           xs: seq<Artifact>)
    requires Readable(blobs, xs)
    ensures forall id :: id in anchors ==>
              id in AnchorAll(h, blobs, anchors, xs) && AnchorAll(h, blobs, anchors, xs)[id] == anchors[id]
    ensures forall i :: 0 <= i < |xs| ==> xs[i].id in AnchorAll(h, blobs, anchors, xs)
    ensures forall id :: id in AnchorAll(h, blobs, anchors, xs) ==>
              id in anchors || exists i :: 0 <= i < |xs| && xs[i].id == id
                                           && AnchorAll(h, blobs, anchors, xs)[id] == h(blobs[xs[i].storageKey])
    decreases |xs|
  {
    if xs != [] {
      var rest := xs[1..];
      var next := InsertIfAbsent(anchors, xs[0].id, h(blobs[xs[0].storageKey]));
      assert forall i :: 0 <= i < |rest| ==> rest[i] == xs[i + 1];
      AnchorAllCovers(h, blobs, next, rest);
      forall id | id in AnchorAll(h, blobs, anchors, xs)
        ensures id in anchors || exists i :: 0 <= i < |xs| && xs[i].id == id
                                             && AnchorAll(h, blobs, anchors, xs)[id] == h(blobs[xs[i].storageKey])
      {
        if id !in next {
          var i :| 0 <= i < |rest| && rest[i].id == id
                   && AnchorAll(h, blobs, anchors, xs)[id] == h(blobs[rest[i].storageKey]);
          assert xs[i + 1].id == id;
        } else if id !in anchors {
          assert xs[0].id == id;
        }
      }
    }
  }

  // ---------- interleaved calls ----------

  /** An anchoring or healing call: what it has still to anchor, or stopped by an error or a crash. */
  datatype Call = Running(todo: seq<nat>) | Stopped

  /** The artifacts whose row exists and the ids used up, those of them whose deal is released now,
      the anchors, and every call so far. */
  datatype Cv = Cv(rows: set<nat>, used: set<nat>, released: set<nat>, anchors: map<nat, Bytes>, calls: seq<Call>)

  datatype Action =
    | Upload(id: nat)
    | Release(id: nat)                        // its deal is released
    | Reopen(id: nat)                         // a stale write takes its deal out of released
    | Delete(id: nat)                         // its row goes, and its anchor with it
    | List(todo: seq<nat>)                    // a call begins: released artifacts with no anchor
    | Insert(c: nat, stored: bool, ok: bool)  // a call's next artifact: its blob was read
    | ReadFails(c: nat)                       // ... or could not be
    | Crash(c: nat)

  predicate HasNext(s: Cv, c: nat) {
    c < |s.calls| && s.calls[c].Running? && s.calls[c].todo != []
  }

  /** An anchor refers to its artifact's row, so an insert for a deleted artifact is refused. */
  predicate Enabled(s: Cv, a: Action) {
    match a
    case Upload(id) => id !in s.used
    case Release(id) => id in s.rows
    case Reopen(id) => id in s.released
    case Delete(id) => id in s.rows
    case List(todo) => forall i :: 0 <= i < |todo| ==> todo[i] in s.released && todo[i] !in s.anchors
    case Insert(c, stored, ok) => HasNext(s, c) && (stored ==> s.calls[c].todo[0] in s.rows) && (ok ==> stored)
    case ReadFails(c) => HasNext(s, c)
    case Crash(c) => c < |s.calls|
  }

  /** What is stored for an artifact, which never changes while its row exists. */
  type Content = nat -> Bytes

  function Step(h: Hasher, content: Content, s: Cv, a: Action): Cv
    requires Enabled(s, a)
  {
    match a
    case Upload(id) => s.(rows := s.rows + {id}, used := s.used + {id})
    case Release(id) => s.(released := s.released + {id})
    case Reopen(id) => s.(released := s.released - {id})
    case Delete(id) => s.(rows := s.rows - {id}, released := s.released - {id}, anchors := s.anchors - {id})
    case List(todo) => s.(calls := s.calls + [Running(todo)])
    case Insert(c, stored, ok) =>
      var id := s.calls[c].todo[0];
      s.(anchors := if stored then InsertIfAbsent(s.anchors, id, h(content(id))) else s.anchors,
         calls := s.calls[c := if ok then Running(s.calls[c].todo[1..]) else Stopped])
    case ReadFails(c) => s.(calls := s.calls[c := Stopped])
    case Crash(c) => s.(calls := s.calls[c := Stopped])
  }

  predicate Run(h: Hasher, content: Content, s: Cv, acts: seq<Action>)
    decreases |acts|
  {
    acts == [] || (Enabled(s, acts[0]) && Run(h, content, Step(h, content, s, acts[0]), acts[1..]))
  }

  function Exec(h: Hasher, content: Content, s: Cv, acts: seq<Action>): Cv
    requires Run(h, content, s, acts)
    decreases |acts|
  {
    if acts == [] then s else Exec(h, content, Step(h, content, s, acts[0]), acts[1..])
  }

  /** Every anchor is the hash of an artifact that exists, and an id used once is not used again. */
  predicate Sound(h: Hasher, content: Content, s: Cv) {
    && s.released <= s.rows <= s.used
    && forall id :: id in s.anchors ==> id in s.rows && s.anchors[id] == h(content(id))
  }

  lemma StepKeepsSound(h: Hasher, content: Content, s: Cv, a: Action)
    requires Sound(h, content, s) && Enabled(s, a)
    ensures Sound(h, content, Step(h, content, s, a))
  {
  }

  /** An anchor is never changed, and it goes only with its artifact, whatever calls and failures. */
  lemma {:induction false} RunKeepsAnchors(h: Hasher, content: Content, s: Cv, acts: seq<Action>)
    requires Sound(h, content, s) && Run(h, content, s, acts)
    ensures var s' := Exec(h, content, s, acts);
            && Sound(h, content, s') && s.used <= s'.used
            && s'.rows * s.used <= s.rows
            && (forall id :: id in s.anchors && id in s'.rows ==> id in s'.anchors)
    decreases |acts|
  {
    if acts != [] {
      RunKeepsAnchors(h, content, Step(h, content, s, acts[0]), acts[1..]);
    }
  }

  /** Call c, while it has met no error, still has to do whatever of these exists and is not
      anchored. */
  predicate Covers(s: Cv, c: nat, base: set<nat>) {
    && c < |s.calls|
    && base <= s.used
    && (s.calls[c].Running? ==>
          forall id :: id in base && id in s.rows ==> id in s.anchors || id in s.calls[c].todo)
  }

  lemma StepKeepsCover(h: Hasher, content: Content, s: Cv, a: Action, c: nat, base: set<nat>)
    requires Enabled(s, a) && Covers(s, c, base)
    ensures Covers(Step(h, content, s, a), c, base)
  {
    var s' := Step(h, content, s, a);
    if a.Insert? && a.c == c && s'.calls[c].Running? {
      var todo := s.calls[c].todo;
      assert todo == [todo[0]] + todo[1..];
      forall id | id in base && id in s'.rows ensures id in s'.anchors || id in s'.calls[c].todo {
        assert id in s.anchors || id in todo;
      }
    }
  }

  lemma {:induction false} RunKeepsCover(h: Hasher, content: Content, s: Cv, acts: seq<Action>, c: nat, base: set<nat>)
    requires Covers(s, c, base) && Run(h, content, s, acts)
    ensures Covers(Exec(h, content, s, acts), c, base)
    decreases |acts|
  {
    if acts != [] {
      StepKeepsCover(h, content, s, acts[0], c, base);
      RunKeepsCover(h, content, Step(h, content, s, acts[0]), acts[1..], c, base);
    }
  }

  /** A heal lists everything released that has no anchor at that moment. */
  predicate ListsAll(s: Cv, todo: seq<nat>) {
    Enabled(s, List(todo)) && forall id :: id in s.released && id !in s.anchors ==> id in todo
  }

  /** After `now`, a heal begins that comes to its end without an error, while and after which
      anything else may go on: other calls, their errors and crashes, releases, reopenings and
      deletions. */
  predicate Heals(h: Hasher, content: Content, now: Cv, todo: seq<nat>, rest: seq<Action>) {
    && ListsAll(now, todo)
    && Run(h, content, Step(h, content, now, List(todo)), rest)
    && var end := Exec(h, content, Step(h, content, now, List(todo)), rest);
       |now.calls| < |end.calls| && end.calls[|now.calls|] == Running([])
  }

  function Healed(h: Hasher, content: Content, now: Cv, todo: seq<nat>, rest: seq<Action>): Cv
    requires Heals(h, content, now, todo, rest)
  {
    Exec(h, content, Step(h, content, now, List(todo)), rest)
  }

  /** One heal without an error is enough, however many calls failed or crashed before or beside
      it: everything that was released when it began and still exists is anchored, and every anchor
      is the hash of an artifact that exists. */
  lemma OneHealSuffices(h: Hasher, content: Content, now: Cv, todo: seq<nat>, rest: seq<Action>)
    requires Sound(h, content, now) && Heals(h, content, now, todo, rest)
    ensures var end := Healed(h, content, now, todo, rest);
            && (forall id :: id in now.released && id in end.rows ==> id in end.anchors)
            && (forall id :: id in end.anchors ==> id in end.rows && end.anchors[id] == h(content(id)))
  {
    var listed := Step(h, content, now, List(todo));
    assert Covers(listed, |now.calls|, now.released);
    RunKeepsCover(h, content, listed, rest, |now.calls|, now.released);
    RunKeepsAnchors(h, content, listed, rest);
  }

  // ---------- anchors of deals that are not released ----------

  /** Anchored artifacts whose deal is not released. */
  function Strays(s: Cv): set<nat> {
    set id | id in s.anchors && id !in s.released
  }

  /** The two steps that leave an anchor behind: a stale write takes the deal of an anchored
      artifact out of released, or a call inserts an anchor for a deal that has left it since the
      call listed it. */
  predicate LeavesStray(s: Cv, a: Action)
    requires Enabled(s, a)
  {
    || (a.Reopen? && a.id in s.anchors)
    || (a.Insert? && a.stored && s.calls[a.c].todo[0] !in s.anchors && s.calls[a.c].todo[0] !in s.released)
  }

  lemma StrayIff(h: Hasher, content: Content, s: Cv, a: Action)
    requires Sound(h, content, s) && Enabled(s, a) && Strays(s) == {}
    ensures Strays(Step(h, content, s, a)) == {} <==> !LeavesStray(s, a)
  {
    var s' := Step(h, content, s, a);
    assert forall id :: id in s.anchors ==> id !in Strays(s);
    if LeavesStray(s, a) {
      assert (if a.Reopen? then a.id else s.calls[a.c].todo[0]) in Strays(s');
    } else {
      assert forall id :: id !in Strays(s');
    }
  }

  predicate NeverStrays(h: Hasher, content: Content, s: Cv, acts: seq<Action>)
    requires Run(h, content, s, acts)
    decreases |acts|
  {
    Strays(s) == {} && (acts == [] || NeverStrays(h, content, Step(h, content, s, acts[0]), acts[1..]))
  }

  predicate NoneLeavesStray(h: Hasher, content: Content, s: Cv, acts: seq<Action>)
    requires Run(h, content, s, acts)
    decreases |acts|
  {
    acts == []
    || (!LeavesStray(s, acts[0]) && NoneLeavesStray(h, content, Step(h, content, s, acts[0]), acts[1..]))
  }

  /** At every point of a run only released artifacts are anchored, if and only if no step of it is
      one of the two. */
  lemma {:induction false} NeverStraysIff(h: Hasher, content: Content, s: Cv, acts: seq<Action>)
    requires Sound(h, content, s) && Strays(s) == {} && Run(h, content, s, acts)
    ensures NeverStrays(h, content, s, acts) <==> NoneLeavesStray(h, content, s, acts)
    decreases |acts|
  {
    if acts != [] {
      var next := Step(h, content, s, acts[0]);
      StrayIff(h, content, s, acts[0]);
      if !LeavesStray(s, acts[0]) {
        StepKeepsSound(h, content, s, acts[0]);
        NeverStraysIff(h, content, next, acts[1..]);
      }
    }
  }

  lemma {:induction false} NoStrayAtTheEnd(h: Hasher, content: Content, s: Cv, acts: seq<Action>)
    requires Sound(h, content, s) && Strays(s) == {}
    requires Run(h, content, s, acts) && NoneLeavesStray(h, content, s, acts)
    ensures Strays(Exec(h, content, s, acts)) == {}
    decreases |acts|
  {
    if acts != [] {
      StrayIff(h, content, s, acts[0]);
      StepKeepsSound(h, content, s, acts[0]);
      NoStrayAtTheEnd(h, content, Step(h, content, s, acts[0]), acts[1..]);
    }
  }

  // ---------- two histories of one table ----------

  /** A history with a heal in it that met no error, and no release since that heal began. */
  predicate Settles(h: Hasher, content: Content, start: Cv, before: seq<Action>, todo: seq<nat>, rest: seq<Action>) {
    && Run(h, content, start, before)
    && Heals(h, content, Exec(h, content, start, before), todo, rest)
    && Healed(h, content, Exec(h, content, start, before), todo, rest).released
       <= Exec(h, content, start, before).released
  }

  function End(h: Hasher, content: Content, start: Cv, before: seq<Action>, todo: seq<nat>, rest: seq<Action>): Cv
    requires Settles(h, content, start, before, todo, rest)
  {
    Healed(h, content, Exec(h, content, start, before), todo, rest)
  }

  /** Then the anchors are those of the released artifacts, and of the strays. */
  lemma AnchorsSettle(h: Hasher, content: Content, start: Cv, before: seq<Action>, todo: seq<nat>, rest: seq<Action>)
    requires Sound(h, content, start) && Settles(h, content, start, before, todo, rest)
    ensures var end := End(h, content, start, before, todo, rest);
            end.anchors == map id | id in end.released + Strays(end) :: h(content(id))
  {
    var now := Exec(h, content, start, before);
    var end := End(h, content, start, before, todo, rest);
    RunKeepsAnchors(h, content, start, before);
    RunKeepsAnchors(h, content, Step(h, content, now, List(todo)), rest);
    OneHealSuffices(h, content, now, todo, rest);
    assert forall id :: id in end.anchors <==> id in end.released + Strays(end);
  }

  /** So two histories that end with the same deals released have the same anchors if and only if
      they have left the same strays, whatever calls began, overlapped, failed or crashed in them. */
  lemma HistoriesAgreeIff(h: Hasher, content: Content, start: Cv,
                          before: seq<Action>, todo: seq<nat>, rest: seq<Action>,
                          before': seq<Action>, todo': seq<nat>, rest': seq<Action>)
    requires Sound(h, content, start)
    requires Settles(h, content, start, before, todo, rest) && Settles(h, content, start, before', todo', rest')
    requires End(h, content, start, before, todo, rest).released
             == End(h, content, start, before', todo', rest').released
    ensures var end, end' := End(h, content, start, before, todo, rest), End(h, content, start, before', todo', rest');
            end.anchors == end'.anchors <==> Strays(end) == Strays(end')
  {
    AnchorsSettle(h, content, start, before, todo, rest);
    AnchorsSettle(h, content, start, before', todo', rest');
  }

  /** ... which they have when neither of the two steps ever happens. */
  lemma AnchoringIsConfluent(h: Hasher, content: Content, start: Cv,
                             before: seq<Action>, todo: seq<nat>, rest: seq<Action>,
                             before': seq<Action>, todo': seq<nat>, rest': seq<Action>)
    requires Sound(h, content, start) && Strays(start) == {}
    requires Settles(h, content, start, before, todo, rest) && Settles(h, content, start, before', todo', rest')
    requires NoneLeavesStray(h, content, start, before)
             && NoneLeavesStray(h, content, Step(h, content, Exec(h, content, start, before), List(todo)), rest)
    requires NoneLeavesStray(h, content, start, before')
             && NoneLeavesStray(h, content, Step(h, content, Exec(h, content, start, before'), List(todo')), rest')
    requires End(h, content, start, before, todo, rest).released
             == End(h, content, start, before', todo', rest').released
    ensures End(h, content, start, before, todo, rest).anchors == End(h, content, start, before', todo', rest').anchors
  {
    NoStrayInHistory(h, content, start, before, todo, rest);
    NoStrayInHistory(h, content, start, before', todo', rest');
    HistoriesAgreeIff(h, content, start, before, todo, rest, before', todo', rest');
  }

  lemma NoStrayInHistory(h: Hasher, content: Content, start: Cv, before: seq<Action>, todo: seq<nat>, rest: seq<Action>)
    requires Sound(h, content, start) && Strays(start) == {}
    requires Settles(h, content, start, before, todo, rest)
    requires NoneLeavesStray(h, content, start, before)
             && NoneLeavesStray(h, content, Step(h, content, Exec(h, content, start, before), List(todo)), rest)
    ensures Strays(End(h, content, start, before, todo, rest)) == {}
  {
    var now := Exec(h, content, start, before);
    RunKeepsAnchors(h, content, start, before);
    NoStrayAtTheEnd(h, content, start, before);
    StepKeepsSound(h, content, now, List(todo));
    assert Strays(Step(h, content, now, List(todo))) == Strays(now);
    NoStrayAtTheEnd(h, content, Step(h, content, now, List(todo)), rest);
  }

  /** A deal released, anchored and reopened keeps its anchor; released and reopened without one,
      it gets none. Both histories end with an error-free heal and nothing released. */
  lemma ReopenedAnchorStays(h: Hasher, content: Content)
    returns (start: Cv, anchored: seq<Action>, bare: seq<Action>)
    ensures Sound(h, content, start) && Strays(start) == {}
    ensures Settles(h, content, start, anchored, [], []) && Settles(h, content, start, bare, [], [])
    ensures End(h, content, start, anchored, [], []).released == {} == End(h, content, start, bare, [], []).released
    ensures End(h, content, start, anchored, [], []).anchors == map[0 := h(content(0))]
    ensures End(h, content, start, bare, [], []).anchors == map[]
  {
    start := Cv({0}, {0}, {0}, map[], []);
    bare := [Reopen(0)];
    OneStep(h, content, start, Reopen(0));
    var s1 := Step(h, content, start, List([0]));
    var s2 := Step(h, content, s1, Insert(0, true, true));
    var s3 := Step(h, content, s2, Reopen(0));
    OneStep(h, content, s2, Reopen(0));
    Prepend(h, content, s1, Insert(0, true, true), [Reopen(0)]);
    anchored := [Insert(0, true, true)] + [Reopen(0)];
    Prepend(h, content, start, List([0]), anchored);
    anchored := [List([0])] + anchored;
  }

  lemma OneStep(h: Hasher, content: Content, s: Cv, a: Action)
    requires Enabled(s, a)
    ensures Run(h, content, s, [a]) && Exec(h, content, s, [a]) == Step(h, content, s, a)
  {
    var acts, rest: seq<Action> := [a], [];
    assert acts[0] == a && acts[1..] == rest;
    assert Run(h, content, Step(h, content, s, a), rest);
    assert Exec(h, content, Step(h, content, s, a), rest) == Step(h, content, s, a);
  }

  lemma Prepend(h: Hasher, content: Content, s: Cv, a: Action, rest: seq<Action>)
    requires Enabled(s, a) && Run(h, content, Step(h, content, s, a), rest)
    ensures Run(h, content, s, [a] + rest)
    ensures Exec(h, content, s, [a] + rest) == Exec(h, content, Step(h, content, s, a), rest)
  {
    assert ([a] + rest)[0] == a && ([a] + rest)[1..] == rest;
  }

  // ---------- the service ----------

  class CvService {
    const hasher: Hasher
    var anchors: map<nat, Bytes>

    constructor (hasher: Hasher)
      ensures this.hasher == hasher && anchors == map[]
    {
      this.hasher := hasher;
      anchors := map[];
    }

    /** INSERT ... ON CONFLICT (artifact_id) DO NOTHING. */
    method InsertAnchor(id: nat, hash: Bytes)
      modifies this
      ensures anchors == InsertIfAbsent(old(anchors), id, hash)
    {
      if id !in anchors {
        anchors := anchors[id := hash];
      }
    }

    /** insertAnchors: in order, up to the first blob that cannot be opened or insert the
        database refuses. */
    method InsertAnchors(blobs: map<nat, Bytes>, refused: set<nat>, candidates: seq<Artifact>)
      returns (ok: bool, done: nat)
      modifies this
      ensures done <= |candidates| && Readable(blobs, candidates[..done])
      ensures anchors == AnchorAll(hasher, blobs, old(anchors), candidates[..done])
      ensures ok <==> done == |candidates|
      ensures forall k :: 0 <= k < done ==> candidates[k].id !in refused
      ensures !ok ==> candidates[done].storageKey !in blobs || candidates[done].id in refused
    {
      done := 0;
      while done < |candidates|
        invariant done <= |candidates| && Readable(blobs, candidates[..done])
        invariant anchors == AnchorAll(hasher, blobs, old(anchors), candidates[..done])
        invariant forall k :: 0 <= k < done ==> candidates[k].id !in refused
      {
        var c := candidates[done];
        if c.storageKey !in blobs || c.id in refused {
          return false, done;
        }
        var digest := hasher(blobs[c.storageKey]);
        assert candidates[..done + 1] == candidates[..done] + [c];
        AnchorAllAppend(hasher, blobs, old(anchors), candidates[..done], c);
        InsertAnchor(c.id, digest);
        done := done + 1;
      }
      assert candidates[..done] == candidates;
      ok := true;
    }

    /** The released artifacts without an anchor, in table order. */
    method ListUnanchored(released: seq<Artifact>) returns (candidates: seq<Artifact>)
      ensures forall k :: 0 <= k < |candidates| ==> candidates[k] in released && candidates[k].id !in anchors
      ensures forall a :: a in released && a.id !in anchors ==> a in candidates
    {
      candidates := [];
      for k := 0 to |released|
        invariant forall j :: 0 <= j < |candidates| ==> candidates[j] in released && candidates[j].id !in anchors
        invariant forall a :: a in released[..k] && a.id !in anchors ==> a in candidates
      {
        assert released[..k + 1] == released[..k] + [released[k]];
        if released[k].id !in anchors {
          candidates := candidates + [released[k]];
        }
      }
      assert released[..|released|] == released;
    }

    /** healAnchors, and AnchorReleasedDeal for one deal's artifacts. Without an error no released
        artifact is left unanchored, nothing anchored before is touched, and what is new carries
        the hash of its blob; a second heal then changes nothing. */
    method HealAnchors(blobs: map<nat, Bytes>, refused: set<nat>, released: seq<Artifact>) returns (ok: bool)
      modifies this
      ensures ok ==> forall a :: a in released ==> a.id in anchors
      ensures forall id :: id in old(anchors) ==> id in anchors && anchors[id] == old(anchors)[id]
      ensures forall id :: id in anchors && id !in old(anchors) ==>
                exists a :: a in released && a.id == id && a.storageKey in blobs
                            && anchors[id] == hasher(blobs[a.storageKey])
      ensures (forall a :: a in released ==> a.id in old(anchors)) ==> ok && anchors == old(anchors)
    {
      var candidates := ListUnanchored(released);
      if |candidates| == 0 {
        return true;
      }
      var done: nat;
      ok, done := InsertAnchors(blobs, refused, candidates);
      AnchorAllCovers(hasher, blobs, old(anchors), candidates[..done]);
      if ok {
        assert candidates[..done] == candidates;
        forall a | a in released ensures a.id in anchors {
          if a.id !in old(anchors) {
            var k :| 0 <= k < |candidates| && candidates[k] == a;
            assert candidates[..done][k].id in anchors;
          }
        }
      }
      forall id | id in anchors && id !in old(anchors)
        ensures exists a :: a in released && a.id == id && a.storageKey in blobs
                            && anchors[id] == hasher(blobs[a.storageKey])
      {
        var k :| 0 <= k < done && candidates[..done][k].id == id
                 && anchors[id] == hasher(blobs[candidates[..done][k].storageKey]);
        assert candidates[k] in released && candidates[..done][k].storageKey in blobs;
      }
    }

    /** VerifyEntry's integrity answer: None when there is no anchor or no blob. */
    method VerifyEntry(blobs: map<nat, Bytes>, a: Artifact) returns (valid: Option<bool>)
      ensures valid.Some? <==> a.id in anchors && a.storageKey in blobs
      ensures valid.Some? ==> (valid.value <==> anchors[a.id] == hasher(blobs[a.storageKey]))
    {
      if a.id !in anchors || a.storageKey !in blobs {
        return None;
      }
      var recomputed := hasher(blobs[a.storageKey]);
      valid := Some(anchors[a.id] == recomputed);
    }

    /** A heal, and the integrity check some time later. An anchor the heal wrote verifies as long
        as its blob hashes as it did then, an older one against the hash it was given; without a
        readable blob there is no answer. */
    method HealThenVerify(blobs: map<nat, Bytes>, refused: set<nat>, released: seq<Artifact>,
                          later: map<nat, Bytes>, a: Artifact)
      returns (ok: bool, valid: Option<bool>)
      requires a in released && forall b :: b in released && b.id == a.id ==> b == a
      modifies this
      ensures ok ==> a.id in anchors
      ensures ok ==> (valid.Some? <==> a.storageKey in later)
      ensures valid.Some? && a.id !in old(anchors) ==>
                a.storageKey in blobs && a.storageKey in later
                && (valid.value <==> hasher(blobs[a.storageKey]) == hasher(later[a.storageKey]))
      ensures valid.Some? && a.id in old(anchors) ==>
                a.storageKey in later && (valid.value <==> old(anchors)[a.id] == hasher(later[a.storageKey]))
    {
      ok := HealAnchors(blobs, refused, released);
      valid := VerifyEntry(later, a);
    }
  }
}
