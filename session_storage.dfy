// The saved-quiz store kept under the 'mcq-quiz-sessions' local-storage key:
// save is an upsert by id that stamps the time, orders newest first and keeps
// at most ten sessions; read falls back to an empty list; delete is by id.
module SessionStorage {
  import opened Common
  import opened QuizTypes
  import Sorting

  /** How many sessions the store retains. */
  const MaxSessions: nat := 10

  /** The comparator `(a, b) => b.lastUpdatedAt - a.lastUpdatedAt`: `a` may stay
      before `b` when it is not older. */
  predicate NewerFirst(a: QuizSession, b: QuizSession) {
    a.lastUpdatedAt >= b.lastUpdatedAt
  }

  lemma NewerFirstIsTotalPreorder()
    ensures Sorting.TotalPreorder(NewerFirst)
  {
  }

  predicate HasId(s: seq<QuizSession>, id: string) {
    exists i :: 0 <= i < |s| && s[i].id == id
  }

  /** No two stored sessions share an id. */
  ghost predicate DistinctIds(s: seq<QuizSession>) {
    forall i, j :: 0 <= i < j < |s| ==> s[i].id != s[j].id
  }

  /** `findIndex(s => s.id === id)`, with `None` for -1: the first position holding `id`. */
  function IndexOfId(s: seq<QuizSession>, id: string): (r: Option<nat>)
    ensures r.Some? ==> r.value < |s| && s[r.value].id == id
    ensures r.Some? ==> forall j :: 0 <= j < r.value ==> s[j].id != id
    ensures r.None? <==> !HasId(s, id)
  {
    if s == [] then None
    else if s[0].id == id then Some(0)
    else
      match IndexOfId(s[1..], id)
      case None =>
        assert forall i :: 1 <= i < |s| ==> s[i] == s[1..][i - 1];
        None
      case Some(k) => Some(k + 1)
  }

  /** Replaces the first session with `x`'s id by `x`, or appends `x` when there is none. */
  function Upsert(s: seq<QuizSession>, x: QuizSession): (r: seq<QuizSession>)
    ensures IndexOfId(s, x.id).Some? ==> r == s[IndexOfId(s, x.id).value := x]
    ensures IndexOfId(s, x.id).None? ==> r == s + [x]
    ensures x in r
    ensures |r| == if HasId(s, x.id) then |s| else |s| + 1
    ensures forall i :: 0 <= i < |s| && s[i].id != x.id ==> r[i] == s[i]
    ensures forall y :: y in r ==> y == x || y in s
  {
    match IndexOfId(s, x.id)
    case Some(k) =>
      var r := s[k := x];
      assert r[k] == x;
      r
    case None => s + [x]
  }

  /** What `saveQuizSession` writes back, given the stored list and the stamped session. */
  function SavedSessions(existing: seq<QuizSession>, stamped: QuizSession): (r: seq<QuizSession>)
    ensures var n := |Upsert(existing, stamped)|;
            |r| == if n > MaxSessions then MaxSessions else n
    ensures multiset(r) <= multiset(Upsert(existing, stamped))
    ensures r == Sorting.SortBy(Upsert(existing, stamped), NewerFirst)[..|r|]
  {
    var sorted := Sorting.SortBy(Upsert(existing, stamped), NewerFirst);
    if |sorted| > MaxSessions then
      assert sorted == sorted[..MaxSessions] + sorted[MaxSessions..];
      sorted[..MaxSessions]
    else sorted
  }

  /** `sessions.filter(s => s.id !== id)`. */
  function WithoutId(s: seq<QuizSession>, id: string): (r: seq<QuizSession>)
    ensures forall y :: y in r <==> y in s && y.id != id
    ensures !HasId(s, id) ==> r == s
  {
    var keep := (x: QuizSession) => x.id != id;
    KeepFacts(s, keep);
    Keep(s, keep)
  }

  /** Delete works piece by piece, so the sessions that remain keep their order. */
  lemma WithoutIdAppend(a: seq<QuizSession>, b: seq<QuizSession>, id: string)
    ensures WithoutId(a + b, id) == WithoutId(a, id) + WithoutId(b, id)
  {
    KeepAppend(a, b, (x: QuizSession) => x.id != id);
  }

  /** The sessions `getQuizSessions` returns for a given state of the key. */
  function SessionsIn(slot: Slot<QuizSession>): seq<QuizSession> {
    if slot.Stored? then slot.items else []
  }

  class SessionStore {
    /** The 'mcq-quiz-sessions' key. */
    var slot: Slot<QuizSession>

    constructor (initial: Slot<QuizSession>)
      ensures slot == initial
    {
      slot := initial;
    }

    /** `saveQuizSession`. A corrupt key makes `JSON.parse` throw, which the code does
        not catch: the call aborts (`saved` is false) and nothing is written. */
    method SaveQuizSession(session: QuizSession, now: int) returns (saved: bool)
      modifies this
      ensures saved <==> !old(slot).Corrupt?
      ensures saved ==> slot == Stored(SavedSessions(SessionsIn(old(slot)), session.(lastUpdatedAt := now)))
      ensures !saved ==> slot == old(slot)
    {
      var stamped := session.(lastUpdatedAt := now);
      if slot.Corrupt? {
        return false;
      }
      var existing := if slot.Stored? then slot.items else [];
      var index := IndexOfId(existing, stamped.id);
      if index.Some? {
        existing := existing[index.value := stamped];
      } else {
        existing := existing + [stamped];
      }
      var recent := Sorting.SortBy(existing, NewerFirst);
      if |recent| > MaxSessions {
        recent := recent[..MaxSessions];
      }
      slot := Stored(recent);
      saved := true;
    }

    /** `getQuizSessions`: the stored list, or `[]` when the key is missing or unparseable. */
    method GetQuizSessions() returns (sessions: seq<QuizSession>)
      ensures slot.Stored? ==> sessions == slot.items
      ensures !slot.Stored? ==> sessions == []
    {
      sessions := if slot.Stored? then slot.items else [];
    }

    /** `deleteQuizSession`: rewrites the key without the sessions carrying `id`; a
        missing key returns early and a corrupt one is caught, so neither is written. */
    method DeleteQuizSession(id: string)
      modifies this
      ensures old(slot).Stored? ==> slot == Stored(WithoutId(old(slot).items, id))
      ensures !old(slot).Stored? ==> slot == old(slot)
    {
      if slot.Stored? {
        slot := Stored(WithoutId(slot.items, id));
      }
    }
  }

  // ---------------------------------------------------------------------------
  // What a save guarantees about the stored list.

  /** The stored list is ordered newest `lastUpdatedAt` first and holds exactly ten
      sessions, or all of them when there are fewer. */
  lemma SavedSessionsOrderedAndBounded(existing: seq<QuizSession>, stamped: QuizSession)
    ensures var n := |Upsert(existing, stamped)|;
            |SavedSessions(existing, stamped)| == if n > MaxSessions then MaxSessions else n
    ensures Sorting.SortedBy(SavedSessions(existing, stamped), NewerFirst)
  {
    var sorted := Sorting.SortBy(Upsert(existing, stamped), NewerFirst);
    NewerFirstIsTotalPreorder();
    Sorting.SortBySorted(Upsert(existing, stamped), NewerFirst);
    var r := SavedSessions(existing, stamped);
    assert forall i :: 0 <= i < |r| ==> r[i] == sorted[i];
  }

  /** On overflow, what is dropped is never newer than what is kept, and nothing
      else is lost: kept and dropped together are the upserted list. */
  lemma SavedSessionsDropOldest(existing: seq<QuizSession>, stamped: QuizSession)
    ensures var all := Upsert(existing, stamped);
            var kept := SavedSessions(existing, stamped);
            exists dropped: seq<QuizSession> :: multiset(kept) + multiset(dropped) == multiset(all)
                              && |dropped| == (if |all| > MaxSessions then |all| - MaxSessions else 0)
                              && NoneNewer(dropped, kept)
  {
    KeepTenNewest(Upsert(existing, stamped), SavedSessions(existing, stamped));
  }

  /** The same, for any list `kept` that is the first ten of `all` newest first. */
  lemma KeepTenNewest(all: seq<QuizSession>, kept: seq<QuizSession>)
    requires |kept| == (if |all| > MaxSessions then MaxSessions else |all|)
    requires kept == Sorting.SortBy(all, NewerFirst)[..|kept|]
    ensures exists dropped: seq<QuizSession> :: multiset(kept) + multiset(dropped) == multiset(all)
                              && |dropped| == (if |all| > MaxSessions then |all| - MaxSessions else 0)
                              && NoneNewer(dropped, kept)
  {
    KeepNewest(all, kept);
    var dropped := Sorting.SortBy(all, NewerFirst)[|kept|..];
    assert |dropped| == (if |all| > MaxSessions then |all| - MaxSessions else 0);
    assert multiset(kept) + multiset(dropped) == multiset(all) && NoneNewer(dropped, kept);
  }

  /** Keeping a prefix of the newest-first order of `all` drops the rest of that
      order: sessions no newer than any kept one, and nothing else. */
  lemma KeepNewest(all: seq<QuizSession>, kept: seq<QuizSession>)
    requires |kept| <= |all| && kept == Sorting.SortBy(all, NewerFirst)[..|kept|]
    ensures var dropped := Sorting.SortBy(all, NewerFirst)[|kept|..];
            && multiset(kept) + multiset(dropped) == multiset(all)
            && |dropped| == |all| - |kept|
            && NoneNewer(dropped, kept)
  {
    var sorted := Sorting.SortBy(all, NewerFirst);
    var n := |kept|;
    assert multiset(kept) + multiset(sorted[n..]) == multiset(all) by {
      assert sorted == kept + sorted[n..];
    }
    assert Sorting.SortedBy(sorted, NewerFirst) by {
      NewerFirstIsTotalPreorder();
      Sorting.SortBySorted(all, NewerFirst);
    }
    SortedSplitDominates(sorted, n);
  }

  /** No session of `dropped` was updated later than any session of `kept`. */
  predicate NoneNewer(dropped: seq<QuizSession>, kept: seq<QuizSession>) {
    forall k, d :: k in kept && d in dropped ==> k.lastUpdatedAt >= d.lastUpdatedAt
  }

  /** In a newest-first list, everything before position `n` is at least as recent
      as everything from `n` on. */
  lemma SortedSplitDominates(sorted: seq<QuizSession>, n: nat)
    requires Sorting.SortedBy(sorted, NewerFirst) && n <= |sorted|
    ensures NoneNewer(sorted[n..], sorted[..n])
  {
    forall k, d | k in sorted[..n] && d in sorted[n..]
      ensures k.lastUpdatedAt >= d.lastUpdatedAt
    {
      var i :| 0 <= i < n && sorted[..n][i] == k;
      var j :| 0 <= j < |sorted| - n && sorted[n..][j] == d;
      assert sorted[i] == k && sorted[n + j] == d;
      assert NewerFirst(sorted[i], sorted[n + j]);
    }
  }

  lemma {:induction false} UpsertKeepsDistinctIds(s: seq<QuizSession>, x: QuizSession)
    requires DistinctIds(s)
    ensures DistinctIds(Upsert(s, x))
  {
    var r := Upsert(s, x);
    match IndexOfId(s, x.id)
    case Some(k) =>
      forall i, j | 0 <= i < j < |r|
        ensures r[i].id != r[j].id
      {
        assert r[i].id == s[i].id && r[j].id == s[j].id;
      }
    case None =>
  }

  /** Sorting reorders the sessions without changing which ids occur how often,
      so distinct ids stay distinct. */
  lemma PermutationKeepsDistinctIds(s: seq<QuizSession>, t: seq<QuizSession>)
    requires multiset(s) == multiset(t)
    requires DistinctIds(s)
    ensures DistinctIds(t)
  {
    forall i, j | 0 <= i < j < |t|
      ensures t[i].id != t[j].id
    {
      Sorting.PermutationPositions(s, t, i, j);
      var a, b :| Sorting.TwoPositions(s, t[i], t[j], a, b);
      assert s[a].id != s[b].id;
    }
  }

  /** If stored ids were distinct before a save, they are distinct after it. */
  lemma SaveKeepsDistinctIds(existing: seq<QuizSession>, stamped: QuizSession)
    requires DistinctIds(existing)
    ensures DistinctIds(SavedSessions(existing, stamped))
  {
    var all := Upsert(existing, stamped);
    UpsertKeepsDistinctIds(existing, stamped);
    var sorted := Sorting.SortBy(all, NewerFirst);
    PermutationKeepsDistinctIds(all, sorted);
  }

  /** The saved session carries the save time whatever the caller passed; with
      distinct ids it is the only stored session with its id; and when the clock
      is ahead of every stored session it is the first one. */
  lemma SavedSessionIsStamped(existing: seq<QuizSession>, session: QuizSession, now: int)
    requires DistinctIds(existing)
    ensures var stamped := session.(lastUpdatedAt := now);
            forall y :: y in SavedSessions(existing, stamped) && y.id == session.id ==> y == stamped
    ensures (forall y :: y in existing ==> y.lastUpdatedAt < now) ==>
              SavedSessions(existing, session.(lastUpdatedAt := now))[0] == session.(lastUpdatedAt := now)
  {
    var stamped := session.(lastUpdatedAt := now);
    var all := Upsert(existing, stamped);
    var sorted := Sorting.SortBy(all, NewerFirst);
    var r := SavedSessions(existing, stamped);
    UpsertKeepsDistinctIds(existing, stamped);
    forall y | y in r && y.id == session.id
      ensures y == stamped
    {
      Sorting.PermutationMembers(sorted, all, y);
      SameIdSameSession(all, y, stamped);
    }
    if forall y :: y in existing ==> y.lastUpdatedAt < now {
      NewerFirstIsTotalPreorder();
      Sorting.SortBySorted(all, NewerFirst);
      Sorting.PermutationMembers(sorted, all, stamped);
      var j :| 0 <= j < |sorted| && sorted[j] == stamped;
      if j > 0 {
        assert NewerFirst(sorted[0], sorted[j]);
      }
      Sorting.PermutationMembers(sorted, all, sorted[0]);
      assert sorted[0].lastUpdatedAt >= now;
      assert sorted[0] == stamped;
      assert r[0] == sorted[0];
    }
  }

  /** With distinct ids, a session is determined by its id. */
  lemma SameIdSameSession(s: seq<QuizSession>, x: QuizSession, y: QuizSession)
    requires DistinctIds(s)
    requires x in s && y in s && x.id == y.id
    ensures x == y
  {
    var i :| 0 <= i < |s| && s[i] == x;
    var j :| 0 <= j < |s| && s[j] == y;
    assert i == j;
  }
}
