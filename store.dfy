/** The reconciler's effect on the local store. The store keeps object
    declarations and state values apart, both keyed by path: creates are
    create-if-absent and value writes overwrite. */
module Store {
  import opened Values
  import opened Schema

  type Objects = map<string, ObjectDecl>
  type States = map<string, State>

  /** The paths of the requests that the store did not reject. */
  function Accepted(reqs: seq<CreateRequest>, rejected: set<string>): (paths: set<string>) {
    set r | r in reqs && r.path !in rejected :: r.path
  }

  /** The store's resolution of the pending creates, in request order: a
      rejected create changes nothing, and an accepted one adds its
      declaration only where no object exists yet. */
  function ApplyCreates(objects: Objects, reqs: seq<CreateRequest>, rejected: set<string>): (result: Objects)
    decreases |reqs|
  {
    if reqs == [] then objects
    else
      var r := reqs[0];
      var next := if r.path in rejected || r.path in objects then objects else objects[r.path := r.decl];
      ApplyCreates(next, reqs[1..], rejected)
  }

  /** No create of the list was rejected, so the whole `Promise.all` resolves. */
  predicate AllCreated(reqs: seq<CreateRequest>, rejected: set<string>) {
    forall i :: 0 <= i < |reqs| ==> reqs[i].path !in rejected
  }

  /** Create-if-absent: existing objects are never redeclared, exactly the
      accepted paths are added, and a new path gets the declaration of the
      first request for it. */
  lemma {:induction false} ApplyCreatesEffect(objects: Objects, reqs: seq<CreateRequest>, rejected: set<string>)
    ensures ApplyCreates(objects, reqs, rejected).Keys == objects.Keys + Accepted(reqs, rejected)
    ensures forall p :: p in objects ==> ApplyCreates(objects, reqs, rejected)[p] == objects[p]
    ensures forall i :: 0 <= i < |reqs| && reqs[i].path !in objects && reqs[i].path !in rejected
                        && (forall i' :: 0 <= i' < i ==> reqs[i'].path != reqs[i].path)
                        ==> ApplyCreates(objects, reqs, rejected)[reqs[i].path] == reqs[i].decl
    decreases |reqs|
  {
    if reqs != [] {
      var r := reqs[0];
      var next := if r.path in rejected || r.path in objects then objects else objects[r.path := r.decl];
      ApplyCreatesEffect(next, reqs[1..], rejected);
      assert Accepted(reqs, rejected) == (if r.path in rejected then {} else {r.path}) + Accepted(reqs[1..], rejected) by {
        assert forall q :: q in reqs <==> q == r || q in reqs[1..];
      }
      forall i | 0 <= i < |reqs| && reqs[i].path !in objects && reqs[i].path !in rejected
                 && (forall i' :: 0 <= i' < i ==> reqs[i'].path != reqs[i].path)
        ensures ApplyCreates(objects, reqs, rejected)[reqs[i].path] == reqs[i].decl
      {
        if i > 0 {
          assert reqs[i] == reqs[1..][i - 1];
          assert forall i' :: 0 <= i' < i - 1 ==> reqs[1..][i'] == reqs[i' + 1];
        }
      }
    }
  }

  /** When every accepted path already has an object, resolving the creates
      changes nothing. */
  lemma {:induction false} ApplyCreatesNoop(objects: Objects, reqs: seq<CreateRequest>, rejected: set<string>)
    requires forall i :: 0 <= i < |reqs| && reqs[i].path !in rejected ==> reqs[i].path in objects
    ensures ApplyCreates(objects, reqs, rejected) == objects
  {
    if reqs != [] {
      assert forall i :: 1 <= i < |reqs| ==> reqs[1..][i - 1] == reqs[i];
      ApplyCreatesNoop(objects, reqs[1..], rejected);
    }
  }

  /** Issuing the same creates a second time is a no-op. */
  lemma CreatesIdempotent(objects: Objects, reqs: seq<CreateRequest>, rejected: set<string>)
    ensures ApplyCreates(ApplyCreates(objects, reqs, rejected), reqs, rejected) == ApplyCreates(objects, reqs, rejected)
  {
    ApplyCreatesEffect(objects, reqs, rejected);
    var once := ApplyCreates(objects, reqs, rejected);
    forall i | 0 <= i < |reqs| && reqs[i].path !in rejected ensures reqs[i].path in once {
      assert reqs[i] in reqs;
    }
    ApplyCreatesNoop(once, reqs, rejected);
  }

  /** `setState(path, val, true)` for every entry, in order. */
  function ApplyWrites(states: States, es: seq<Entry>): (result: States) {
    if es == [] then states
    else
      var n := |es| - 1;
      ApplyWrites(states, es[..n])[es[n].path := State(Some(es[n].val), true)]
  }

  lemma ApplyWritesSnoc(states: States, es: seq<Entry>, e: Entry)
    ensures ApplyWrites(states, es + [e]) == ApplyWrites(states, es)[e.path := State(Some(e.val), true)]
  {
    assert (es + [e])[..|es|] == es;
  }

  /** Writing `a` then `b` is writing `a + b`. */
  lemma {:induction false} ApplyWritesAppend(states: States, a: seq<Entry>, b: seq<Entry>)
    ensures ApplyWrites(states, a + b) == ApplyWrites(ApplyWrites(states, a), b)
  {
    if b == [] {
      assert a + b == a;
    } else {
      var n := |b| - 1;
      ApplyWritesAppend(states, a, b[..n]);
      assert (a + b)[..|a + b| - 1] == a + b[..n];
    }
  }

  function PathSet(es: seq<Entry>): (paths: set<string>) {
    set e | e in es :: e.path
  }

  /** The writes add exactly the entries' paths to the store. */
  lemma {:induction false} ApplyWritesKeys(states: States, es: seq<Entry>)
    ensures ApplyWrites(states, es).Keys == states.Keys + PathSet(es)
  {
    if es != [] {
      var n := |es| - 1;
      ApplyWritesKeys(states, es[..n]);
      assert PathSet(es) == PathSet(es[..n]) + {es[n].path} by {
        assert forall e :: e in es <==> e in es[..n] || e == es[n];
      }
    }
  }

  /** With distinct paths, entry `i`'s path ends up holding its value,
      acknowledged: no later write overwrites it. */
  lemma {:induction false} ApplyWritesAt(states: States, es: seq<Entry>, i: nat)
    requires DistinctPaths(es) && i < |es|
    ensures es[i].path in ApplyWrites(states, es)
    ensures ApplyWrites(states, es)[es[i].path] == State(Some(es[i].val), true)
  {
    var n := |es| - 1;
    if i < n {
      var front := es[..n];
      assert front[i] == es[i];
      assert DistinctPaths(front);
      ApplyWritesAt(states, front, i);
    }
  }

  /** A path no entry names keeps its state. */
  lemma {:induction false} ApplyWritesUntouched(states: States, es: seq<Entry>, p: string)
    requires p in states && p !in PathSet(es)
    ensures p in ApplyWrites(states, es) && ApplyWrites(states, es)[p] == states[p]
  {
    if es != [] {
      var n := |es| - 1;
      assert es[n] in es;
      assert PathSet(es[..n]) <= PathSet(es) by {
        assert forall e :: e in es[..n] ==> e in es;
      }
      ApplyWritesUntouched(states, es[..n], p);
    }
  }

  /** The writes touch exactly the entries' paths; each of them ends up
      holding its own entry's value, acknowledged, and every other state is
      left as it was. */
  lemma ApplyWritesEffect(states: States, es: seq<Entry>)
    requires DistinctPaths(es)
    ensures ApplyWrites(states, es).Keys == states.Keys + PathSet(es)
    ensures forall i :: 0 <= i < |es| ==> ApplyWrites(states, es)[es[i].path] == State(Some(es[i].val), true)
    ensures forall p :: p in states && p !in PathSet(es) ==> ApplyWrites(states, es)[p] == states[p]
  {
    ApplyWritesKeys(states, es);
    forall i | 0 <= i < |es| ensures ApplyWrites(states, es)[es[i].path] == State(Some(es[i].val), true) {
      ApplyWritesAt(states, es, i);
    }
    forall p | p in states && p !in PathSet(es) ensures ApplyWrites(states, es)[p] == states[p] {
      ApplyWritesUntouched(states, es, p);
    }
  }

  /** Every path some entry names ends up holding the last write to it,
      whatever the store held before. */
  lemma {:induction false} ApplyWritesOverwrites(a: States, b: States, es: seq<Entry>, p: string)
    requires p in PathSet(es)
    ensures p in ApplyWrites(a, es) && p in ApplyWrites(b, es)
    ensures ApplyWrites(a, es)[p] == ApplyWrites(b, es)[p]
  {
    var n := |es| - 1;
    if es[n].path != p {
      var e :| e in es && e.path == p;
      var i :| 0 <= i < |es| && es[i] == e;
      assert es[..n][i] == e;
      ApplyWritesOverwrites(a, b, es[..n], p);
    }
  }

  /** Two stores that agree outside the entries' paths agree after the
      writes. */
  lemma ApplyWritesFrame(a: States, b: States, es: seq<Entry>)
    requires forall p :: p !in PathSet(es) ==> (p in a <==> p in b)
    requires forall p :: p !in PathSet(es) && p in a ==> a[p] == b[p]
    ensures ApplyWrites(a, es) == ApplyWrites(b, es)
  {
    ApplyWritesKeys(a, es);
    ApplyWritesKeys(b, es);
    forall p | p in ApplyWrites(a, es) ensures ApplyWrites(a, es)[p] == ApplyWrites(b, es)[p] {
      if p in PathSet(es) {
        ApplyWritesOverwrites(a, b, es, p);
      } else {
        ApplyWritesUntouched(a, es, p);
        ApplyWritesUntouched(b, es, p);
      }
    }
  }

  /** Writing the same entries a second time is a no-op, even when two
      entries share a path: the last write to each path wins both times. */
  lemma WritesIdempotent(states: States, es: seq<Entry>)
    ensures ApplyWrites(ApplyWrites(states, es), es) == ApplyWrites(states, es)
  {
    var once := ApplyWrites(states, es);
    ApplyWritesKeys(states, es);
    forall p | p !in PathSet(es) && p in once ensures once[p] == states[p] {
      ApplyWritesUntouched(states, es, p);
    }
    ApplyWritesFrame(once, states, es);
  }

  /** Running a full reconciliation of a summary a second time issues only
      no-op creates and leaves every value as it is. */
  lemma ReconcileIdempotent(objects: Objects, states: States, s: Summary)
    requires Named(s)
    ensures var created := ApplyCreates(objects, Declarations(s), {});
            ApplyCreates(created, Declarations(s), {}) == created
    ensures var written := ApplyWrites(states, Entries(s));
            ApplyWrites(written, Entries(s)) == written
  {
    CreatesIdempotent(objects, Declarations(s), {});
    WritesIdempotent(states, Entries(s));
  }

  /** After a cycle in which every create resolved, every attribute's path
      holds an object, a new one being the attribute's own declaration, and
      a state with the attribute's value, acknowledged. */
  lemma Mirrored(objects: Objects, states: States, s: Summary, rejected: set<string>, i: nat)
    requires WellFormed(s) && i < |Entries(s)|
    requires AllCreated(Declarations(s), rejected)
    ensures var created := ApplyCreates(objects, Declarations(s), rejected);
            && Entries(s)[i].path in created
            && (Entries(s)[i].path !in objects ==> created[Entries(s)[i].path] == Declare(Entries(s)[i]).decl)
    ensures var written := ApplyWrites(states, Entries(s));
            && Entries(s)[i].path in written
            && written[Entries(s)[i].path] == State(Some(Entries(s)[i].val), true)
  {
    var ds := Declarations(s);
    ApplyCreatesEffect(objects, ds, rejected);
    assert ds[i] in ds;
    EntriesDistinct(s);
    ApplyWritesEffect(states, Entries(s));
  }
}
