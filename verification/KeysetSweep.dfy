/** The administrator's bulk sweeps: batches are walked in pages of ids after a cursor while rows
    enter and leave the matching status.  Ids are positive integers in the order of the primary
    key; 0 stands for the empty cursor that precedes every id. */
module KeysetSweep {
  import opened Common

  const PAGE_SIZE: nat := 200

  ghost predicate Ascending(ids: seq<int>) {
    forall i, j :: 0 <= i < j < |ids| ==> ids[i] < ids[j]
  }

  /** The answer to WHERE <matching> AND id > after ORDER BY id LIMIT limit. */
  ghost predicate IsPage(matching: set<int>, after: int, limit: nat, page: seq<int>) {
    && Ascending(page) && |page| <= limit
    && (forall id :: id in page ==> id in matching && id > after)
    && (forall id :: id in matching && id > after && id !in page ==>
          |page| == limit && forall p :: p in page ==> p < id)
  }

  lemma AscendingJoin(a: seq<int>, b: seq<int>)
    requires Ascending(a) && Ascending(b) && forall x, y :: x in a && y in b ==> x < y
    ensures Ascending(a + b)
  {
    forall i, j | 0 <= i < j < |a + b|
      ensures (a + b)[i] < (a + b)[j]
    {
      if i < |a| <= j {
        assert a[i] in a && b[j - |a|] in b;
      }
    }
  }

  /** The first i elements of an ascending sequence are those up to the last of them. */
  lemma FirstOf(ids: seq<int>, i: nat)
    requires Ascending(ids) && 0 < i <= |ids|
    ensures Ascending(ids[..i])
    ensures forall x :: x in ids[..i] <==> x in ids && x <= ids[i - 1]
  {
    forall x | x in ids && x <= ids[i - 1]
      ensures x in ids[..i]
    {
      var k :| 0 <= k < |ids| && ids[k] == x;
      assert k < i;
      assert ids[..i][k] == x;
    }
  }

  /** A page is determined by the rows that match, the cursor and the limit. */
  lemma {:induction false} PageIsUnique(matching: set<int>, after: int, limit: nat, p: seq<int>, q: seq<int>)
    requires IsPage(matching, after, limit, p) && IsPage(matching, after, limit, q)
    ensures p == q
    decreases limit
  {
    EmptyExactlyWhen(matching, after, limit, p);
    EmptyExactlyWhen(matching, after, limit, q);
    if p != [] {
      SameFirst(matching, after, limit, p, q);
      RestIsPage(matching, after, limit, p);
      RestIsPage(matching, after, limit, q);
      PageIsUnique(matching, p[0], limit - 1, p[1..], q[1..]);
      SameParts(p, q);
    }
  }

  lemma SameFirst(matching: set<int>, after: int, limit: nat, p: seq<int>, q: seq<int>)
    requires IsPage(matching, after, limit, p) && IsPage(matching, after, limit, q) && p != [] && q != []
    ensures p[0] == q[0]
  {
    FirstIsLeast(matching, after, limit, p);
    FirstIsLeast(matching, after, limit, q);
  }

  lemma SameParts(p: seq<int>, q: seq<int>)
    requires p != [] && q != [] && p[0] == q[0] && p[1..] == q[1..]
    ensures p == q
  {
    assert p == [p[0]] + p[1..] && q == [q[0]] + q[1..];
  }

  lemma EmptyExactlyWhen(matching: set<int>, after: int, limit: nat, page: seq<int>)
    requires IsPage(matching, after, limit, page)
    ensures page == [] <==> limit == 0 || forall id :: id in matching ==> id <= after
  {
    if page != [] {
      assert page[0] in page;
    }
  }

  lemma FirstIsLeast(matching: set<int>, after: int, limit: nat, page: seq<int>)
    requires IsPage(matching, after, limit, page) && page != []
    ensures page[0] in matching && page[0] > after && forall id :: id in matching && id > after ==> page[0] <= id
  {
    assert page[0] in page;
  }

  lemma RestIsPage(matching: set<int>, after: int, limit: nat, page: seq<int>)
    requires IsPage(matching, after, limit, page) && page != []
    ensures IsPage(matching, page[0], limit - 1, page[1..])
  {
    var rest := page[1..];
    assert page[0] in page;
    assert page == [page[0]] + rest;
    assert forall id :: id in rest ==> id in page && id > page[0];
    forall id | id in page && id > page[0]
      ensures id in rest
    {
      var k :| 0 <= k < |page| && page[k] == id;
      assert rest[k - 1] == id;
    }
  }

  method ListBatchIDs(matching: set<int>, after: int, limit: int) returns (ids: seq<int>)
    ensures IsPage(matching, after, if limit <= 0 then 200 else limit, ids)
  {
    var n := if limit <= 0 then PAGE_SIZE else limit;
    var rest := set id | id in matching && id > after;
    ids := [];
    while rest != {} && |ids| < n
      invariant |ids| <= n && Ascending(ids)
      invariant forall id :: id in ids ==> id in matching && id > after
      invariant forall id :: id in rest ==> id in matching && id > after
      invariant forall id :: id in matching && id > after && id !in ids ==> id in rest
      invariant forall p, id :: p in ids && id in rest ==> p < id
      decreases |rest|
    {
      LeastExists(rest);
      var least :| least in rest && forall id :: id in rest ==> least <= id;
      AscendingJoin(ids, [least]);
      ids := ids + [least];
      rest := rest - {least};
    }
  }

  /** What happens at one turn of the sweep: the fetch fails, or sees the matching rows and goes
      through; then handed ids of the page get a slot before the context is found done. */
  datatype Fetch = FetchError | Fetched(matching: set<int>, handed: nat)

  datatype Ending = LastPage | FetchFailed | ContextDone

  /** The row id matched at each of these fetches. */
  ghost predicate MatchesThroughout(fetches: seq<Fetch>, id: int) {
    forall k :: 0 <= k < |fetches| ==> fetches[k].Fetched? && id in fetches[k].matching
  }

  /** The row id matched at one of these fetches. */
  ghost predicate MatchedOnce(fetches: seq<Fetch>, id: int) {
    exists k :: 0 <= k < |fetches| && fetches[k].Fetched? && id in fetches[k].matching
  }

  lemma MatchesSnoc(fetches: seq<Fetch>, f: Fetch, id: int)
    ensures MatchesThroughout(fetches + [f], id) <==> MatchesThroughout(fetches, id) && f.Fetched? && id in f.matching
    ensures MatchedOnce(fetches + [f], id) <==> MatchedOnce(fetches, id) || (f.Fetched? && id in f.matching)
  {
    var all := fetches + [f];
    assert all[|fetches|] == f;
    assert forall k :: 0 <= k < |fetches| ==> all[k] == fetches[k];
  }

  /** The cursor after these ids. */
  function Last(visited: seq<int>): int {
    if visited == [] then 0 else visited[|visited| - 1]
  }

  /** Each batch was handed out at most once, in the order of the ids, and only if it matched; up to
      the last one handed out, none that matched throughout was missed. */
  ghost predicate Walked(fetches: seq<Fetch>, visited: seq<int>) {
    && Ascending(visited)
    && (forall id :: id in visited ==> 0 < id <= Last(visited) && MatchedOnce(fetches, id))
    && (forall id :: 0 < id <= Last(visited) && MatchesThroughout(fetches, id) ==> id in visited)
  }

  /** None that matched throughout was missed at all. */
  ghost predicate MissedNone(fetches: seq<Fetch>, visited: seq<int>) {
    forall id :: id > 0 && MatchesThroughout(fetches, id) ==> id in visited
  }

  /** Why a sweep is over, and how far it then has got: only full pages are followed by another. */
  ghost predicate Ends(fetches: seq<Fetch>, used: nat, visited: seq<int>, ending: Ending)
    requires used <= |fetches|
  {
    match ending
    case LastPage => MissedNone(fetches[..used], visited) && 200 * (used - 1) <= |visited| < 200 * used
    case FetchFailed => |visited| == 200 * used && (used == |fetches| || fetches[used].FetchError?)
    case ContextDone =>
      used > 0 && fetches[used - 1].Fetched? && |visited| == 200 * (used - 1) + fetches[used - 1].handed
  }

  /** Handing out the first n ids of the page after the cursor. */
  lemma WalkOn(fetches: seq<Fetch>, f: Fetch, visited: seq<int>, page: seq<int>, n: nat)
    requires Walked(fetches, visited) && Last(visited) >= 0
    requires f.Fetched? && IsPage(f.matching, Last(visited), PAGE_SIZE, page) && n <= |page|
    ensures Walked(fetches + [f], visited + page[..n])
    ensures n > 0 ==> Last(visited + page[..n]) == page[n - 1] > 0
  {
    var part := page[..n];
    forall id
      ensures MatchesThroughout(fetches + [f], id) ==> MatchesThroughout(fetches, id) && id in f.matching
      ensures MatchedOnce(fetches, id) || id in f.matching ==> MatchedOnce(fetches + [f], id)
    {
      MatchesSnoc(fetches, f, id);
    }
    if n > 0 {
      FirstOf(page, n);
      AscendingJoin(visited, part);
      assert page[n - 1] in page;
    } else {
      assert visited + part == visited;
    }
  }

  /** An empty or a short page ends the walk. */
  lemma WalkEnds(fetches: seq<Fetch>, f: Fetch, visited: seq<int>, page: seq<int>)
    requires Walked(fetches, visited) && Last(visited) >= 0
    requires f.Fetched? && IsPage(f.matching, Last(visited), PAGE_SIZE, page) && |page| < PAGE_SIZE
    ensures MissedNone(fetches + [f], visited + page)
  {
    forall id | id > 0 && MatchesThroughout(fetches + [f], id)
      ensures id in visited + page
    {
      MatchesSnoc(fetches, f, id);
    }
  }

  /** One turn of the loop, handing out the first n ids of its page. */
  lemma Turn(fetches: seq<Fetch>, used: nat, visited: seq<int>, page: seq<int>, n: nat)
    requires used < |fetches| && fetches[used].Fetched? && |visited| == PAGE_SIZE * used
    requires Walked(fetches[..used], visited) && Last(visited) >= 0
    requires IsPage(fetches[used].matching, Last(visited), PAGE_SIZE, page)
    requires n == if fetches[used].handed < |page| then fetches[used].handed else |page|
    ensures var now := visited + page[..n];
      && Walked(fetches[..used + 1], now)
      && (n < |page| ==> Ends(fetches, used + 1, now, ContextDone))
      && (n == |page| < PAGE_SIZE ==> Ends(fetches, used + 1, now, LastPage))
      && (n == |page| == PAGE_SIZE ==> |now| == PAGE_SIZE * (used + 1) && Last(now) == page[n - 1] >= 0)
  {
    assert fetches[..used + 1] == fetches[..used] + [fetches[used]];
    WalkOn(fetches[..used], fetches[used], visited, page, n);
    if n == |page| < PAGE_SIZE {
      assert page[..n] == page;
      WalkEnds(fetches[..used], fetches[used], visited, page);
    }
  }

  /** The outcomes of the first n batches handed out. */
  function Tally<O>(outcome: nat -> O, n: nat): multiset<O> {
    if n == 0 then multiset{} else Tally(outcome, n - 1) + multiset{outcome(n - 1)}
  }

  /** Hands out the ids of one page, until the page or the context is done. */
  method HandOut<O(==)>(ids: seq<int>, handed: nat, outcome: nat -> O, visited: seq<int>, tally: multiset<O>)
    returns (n: nat, counts: multiset<O>)
    requires tally == Tally(outcome, |visited|)
    ensures n == (if handed < |ids| then handed else |ids|) && counts == Tally(outcome, |visited + ids[..n]|)
  {
    var total := |visited|;
    n, counts := 0, tally;
    while n < |ids| && n < handed
      invariant n <= |ids| && n <= handed && total == |visited| + n && counts == Tally(outcome, total)
    {
      counts := counts + multiset{outcome(total)};
      n, total := n + 1, total + 1;
    }
    assert total == |visited + ids[..n]|;
  }

  /** The loop both sweeps share.  After the last of the given fetches the time limit of the sweep
      has passed, so that the next one fails. */
  method Sweep<O(==)>(fetches: seq<Fetch>, outcome: nat -> O)
    returns (visited: seq<int>, counts: multiset<O>, used: nat, ending: Ending)
    ensures used <= |fetches| && Walked(fetches[..used], visited)
    ensures Ends(fetches, used, visited, ending) && counts == Tally(outcome, |visited|)
  {
    var after := 0;
    visited, counts, used, ending := [], multiset{}, 0, FetchFailed;
    while used < |fetches|
      invariant used <= |fetches| && ending == FetchFailed
      invariant after == Last(visited) >= 0 && Walked(fetches[..used], visited)
      invariant |visited| == PAGE_SIZE * used && counts == Tally(outcome, |visited|)
    {
      var f := fetches[used];
      if f.FetchError? {
        break;
      }
      var ids := ListBatchIDs(f.matching, after, PAGE_SIZE);
      used := used + 1;
      if ids == [] {
        Turn(fetches, used - 1, visited, ids, 0);
        assert visited + ids[..0] == visited;
        ending := LastPage;
        break;
      }
      after := ids[|ids| - 1];
      var n;
      n, counts := HandOut(ids, f.handed, outcome, visited, counts);
      Turn(fetches, used - 1, visited, ids, n);
      visited := visited + ids[..n];
      if n < |ids| {
        ending := ContextDone;
        return;
      }
      if |ids| < PAGE_SIZE {
        ending := LastPage;
        break;
      }
    }
  }

  datatype StartOutcome = Started | NotPending | StartFailed

  lemma {:induction false} TallySize<O>(outcome: nat -> O, n: nat)
    ensures |Tally(outcome, n)| == n
  {
    if n > 0 {
      TallySize(outcome, n - 1);
    }
  }

  /** The tally of an outcome is the number of batches it befell. */
  lemma {:induction false} TallyCounts<O>(outcome: nat -> O, n: nat, o: O, hit: set<int>)
    requires forall k :: k in hit <==> 0 <= k < n && outcome(k) == o
    ensures Tally(outcome, n)[o] == |hit|
  {
    if n == 0 {
      assert hit == {};
    } else {
      var before := hit - {n - 1};
      TallyCounts(outcome, n - 1, o, before);
      assert outcome(n - 1) == o ==> hit == before + {n - 1};
    }
  }

  lemma ThreeKinds(m: multiset<StartOutcome>)
    ensures m[Started] + m[NotPending] + m[StartFailed] == |m|
  {
    var a := multiset{}[Started := m[Started]];
    var b := multiset{}[NotPending := m[NotPending]];
    var c := multiset{}[StartFailed := m[StartFailed]];
    forall o
      ensures (a + b + c)[o] == m[o]
    {
      match o {
        case Started =>
        case NotPending =>
        case StartFailed =>
      }
    }
    assert m == a + b + c;
  }

  /** POST /batches/start-pending: every batch handed out is counted exactly once. */
  method RunBulkStart(fetches: seq<Fetch>, outcome: nat -> StartOutcome)
    returns (visited: seq<int>, started: nat, skipped: nat, failed: nat, used: nat, ending: Ending)
    ensures used <= |fetches| && Walked(fetches[..used], visited)
    ensures Ends(fetches, used, visited, ending)
    ensures started + skipped + failed == |visited|
    ensures started == |set k | 0 <= k < |visited| && outcome(k) == Started|
    ensures skipped == |set k | 0 <= k < |visited| && outcome(k) == NotPending|
    ensures failed == |set k | 0 <= k < |visited| && outcome(k) == StartFailed|
  {
    var counts;
    visited, counts, used, ending := Sweep(fetches, outcome);
    TallySize(outcome, |visited|);
    ThreeKinds(counts);
    TallyCounts(outcome, |visited|, Started, set k | 0 <= k < |visited| && outcome(k) == Started);
    TallyCounts(outcome, |visited|, NotPending, set k | 0 <= k < |visited| && outcome(k) == NotPending);
    TallyCounts(outcome, |visited|, StartFailed, set k | 0 <= k < |visited| && outcome(k) == StartFailed);
    started, skipped, failed := counts[Started], counts[NotPending], counts[StartFailed];
  }

  /** POST /batches/retrigger-webhooks: true stands for an accepted delivery. */
  method RunBulkRetrigger(fetches: seq<Fetch>, accepted: nat -> bool)
    returns (visited: seq<int>, sent: nat, failed: nat, used: nat, ending: Ending)
    ensures used <= |fetches| && Walked(fetches[..used], visited)
    ensures Ends(fetches, used, visited, ending)
    ensures sent + failed == |visited|
    ensures sent == |set k | 0 <= k < |visited| && accepted(k)|
    ensures failed == |set k | 0 <= k < |visited| && !accepted(k)|
  {
    var counts;
    visited, counts, used, ending := Sweep(fetches, accepted);
    TallySize(accepted, |visited|);
    TallyCounts(accepted, |visited|, true, set k | 0 <= k < |visited| && accepted(k));
    TallyCounts(accepted, |visited|, false, set k | 0 <= k < |visited| && !accepted(k));
    var yes, no := multiset{}[true := counts[true]], multiset{}[false := counts[false]];
    assert forall b :: (yes + no)[b] == counts[b];
    assert counts == yes + no;
    sent, failed := counts[true], counts[false];
  }
}
