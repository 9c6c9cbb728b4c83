/** The roadmap gate (script.js:214 and 244): `notReady` is the roster
    filtered to the participants whose status is not "Interested"; the
    gate admits entry to the roadmap only when it is empty. */
module Gate {

  import opened Roster
  import opened Responses

  /** The participant holds the gate closed. */
  predicate Blocks(r: ResponseMap, p: Person) {
    StatusOf(r, p.code) != Interested
  }

  /** `ps.filter(p => status(p) !== "Interested")`: exactly the members of
      `ps` that block, and no more of them than `ps` has. */
  function Blockers(ps: seq<Person>, r: ResponseMap): (b: seq<Person>)
    ensures |b| <= |ps|
    ensures forall p :: p in b <==> p in ps && Blocks(r, p)
  {
    if ps == [] then []
    else if Blocks(r, ps[0]) then [ps[0]] + Blockers(ps[1..], r)
    else Blockers(ps[1..], r)
  }

  /** `notReady` over the whole roster. */
  function NotReady(r: ResponseMap): seq<Person> {
    Blockers(People, r)
  }

  /** `notReady.length === 0`: every participant answered "Interested". */
  function GateOpen(r: ResponseMap): (open: bool)
    ensures open <==> forall i :: 0 <= i < |People| ==> StatusOf(r, People[i].code) == Interested
  {
    var b := NotReady(r);
    assert |b| > 0 ==> b[0] in People && Blocks(r, b[0]);
    assert forall i :: 0 <= i < |People| && Blocks(r, People[i]) ==> People[i] in b;
    |b| == 0
  }

  /** Blockers keep the order of the list they were filtered from: of two
      blockers, the earlier one sits earlier in `ps`. */
  lemma {:induction false} BlockersInOrder(ps: seq<Person>, r: ResponseMap, i: nat, j: nat) returns (m: nat, n: nat)
    requires i < j < |Blockers(ps, r)|
    ensures m < n < |ps|
    ensures ps[m] == Blockers(ps, r)[i] && ps[n] == Blockers(ps, r)[j]
  {
    var b := Blockers(ps, r);
    var rest := Blockers(ps[1..], r);
    if Blocks(r, ps[0]) {
      assert b == [ps[0]] + rest;
      if i == 0 {
        n := BlockerPosition(ps[1..], r, j - 1);
        m, n := 0, n + 1;
      } else {
        m, n := BlockersInOrder(ps[1..], r, i - 1, j - 1);
        m, n := m + 1, n + 1;
      }
    } else {
      assert b == rest;
      m, n := BlockersInOrder(ps[1..], r, i, j);
      m, n := m + 1, n + 1;
    }
  }

  /** Where the k-th blocker sits in `ps`. */
  lemma BlockerPosition(ps: seq<Person>, r: ResponseMap, k: nat) returns (n: nat)
    requires k < |Blockers(ps, r)|
    ensures n < |ps| && ps[n] == Blockers(ps, r)[k]
  {
    var p := Blockers(ps, r)[k];
    assert p in Blockers(ps, r);
    n :| 0 <= n < |ps| && ps[n] == p;
  }

  /** Filtering a concatenation filters each part: blockers from earlier
      entries come before blockers from later ones. */
  lemma {:induction false} BlockersAppend(ps: seq<Person>, qs: seq<Person>, r: ResponseMap)
    ensures Blockers(ps + qs, r) == Blockers(ps, r) + Blockers(qs, r)
  {
    if ps == [] {
      assert ps + qs == qs;
    } else {
      assert (ps + qs)[0] == ps[0];
      assert (ps + qs)[1..] == ps[1..] + qs;
      BlockersAppend(ps[1..], qs, r);
      if Blocks(r, ps[0]) {
        var rest := Blockers(ps[1..], r);
        assert [ps[0]] + (rest + Blockers(qs, r)) == ([ps[0]] + rest) + Blockers(qs, r);
      }
    }
  }

  /** The blockers depend only on each listed participant's status. */
  lemma {:induction false} BlockersFollowStatus(ps: seq<Person>, r: ResponseMap, r': ResponseMap)
    requires forall i :: 0 <= i < |ps| ==> StatusOf(r, ps[i].code) == StatusOf(r', ps[i].code)
    ensures Blockers(ps, r) == Blockers(ps, r')
  {
    if ps != [] {
      BlockersFollowStatus(ps[1..], r, r');
    }
  }

  /** When every listed participant blocks, the blockers are the list itself. */
  lemma {:induction false} AllBlockingKept(ps: seq<Person>, r: ResponseMap)
    requires forall i :: 0 <= i < |ps| ==> Blocks(r, ps[i])
    ensures Blockers(ps, r) == ps
  {
    if ps != [] {
      AllBlockingKept(ps[1..], r);
    }
  }

  /** When exactly the entry at position k blocks, it is the only blocker. */
  lemma {:induction false} SingleHoldout(ps: seq<Person>, r: ResponseMap, k: nat)
    requires k < |ps|
    requires forall i :: 0 <= i < |ps| ==> (Blocks(r, ps[i]) <==> i == k)
    ensures Blockers(ps, r) == [ps[k]]
  {
    if k == 0 {
      NoneBlocking(ps[1..], r);
    } else {
      SingleHoldout(ps[1..], r, k - 1);
    }
  }

  /** When no listed participant blocks, there are no blockers. */
  lemma {:induction false} NoneBlocking(ps: seq<Person>, r: ResponseMap)
    requires forall i :: 0 <= i < |ps| ==> !Blocks(r, ps[i])
    ensures Blockers(ps, r) == []
  {
    if ps != [] {
      NoneBlocking(ps[1..], r);
    }
  }

  // ---------------------------------------------------------------------
  // The gate on concrete response maps

  /** With no responses stored, all 17 participants block, in roster order. */
  lemma NothingStoredBlocksEveryone()
    ensures NotReady(map[]) == People
    ensures !GateOpen(map[])
  {
    EmptyMapBlocksAll(People);
    assert |NotReady(map[])| != 0;
  }

  /** With no responses stored, every listed participant blocks (stated over
      any list, so that the roster's literal stays out of the proof above). */
  lemma EmptyMapBlocksAll(ps: seq<Person>)
    ensures Blockers(ps, map[]) == ps
  {
    AllBlockingKept(ps, map[]);
  }

  /** One "Not Interested" (or missing) participant among otherwise
      "Interested" ones is the single blocker. */
  lemma OneHoldoutBlocks(r: ResponseMap, k: nat)
    requires k < |People|
    requires StatusOf(r, People[k].code) != Interested
    requires forall i :: 0 <= i < |People| && i != k ==> StatusOf(r, People[i].code) == Interested
    ensures NotReady(r) == [People[k]]
    ensures !GateOpen(r)
  {
    SingleHoldout(People, r, k);
  }

  /** Only the first participant is "Interested": the other 16 block, in
      roster order. */
  lemma OnlyFirstInterested(r: ResponseMap)
    requires StatusOf(r, People[0].code) == Interested
    requires forall i :: 1 <= i < |People| ==> StatusOf(r, People[i].code) != Interested
    ensures NotReady(r) == People[1..]
  {
    AllButFirstKept(People, r);
  }

  /** When all but the first listed participant block, the blockers are the rest of the list. */
  lemma AllButFirstKept(ps: seq<Person>, r: ResponseMap)
    requires ps != [] && !Blocks(r, ps[0])
    requires forall i :: 1 <= i < |ps| ==> Blocks(r, ps[i])
    ensures Blockers(ps, r) == ps[1..]
  {
    AllBlockingKept(ps[1..], r);
  }
}
