/**
 * The doctor directory: the client-side search over the fetched list and
 * the mapping of the specialty filter to the list request.
 */
module Directory {
  import opened Wrappers
  import opened Text

  /** The fields of a directory entry that the search reads, plus its id. */
  datatype Doctor = Doctor(id: string, name: string, specialization: string)

  /** The value of the specialty filter that stands for "every specialty". */
  const ALL := "All"

  /** `filter === 'All' ? undefined : filter`: the specialty the list is requested for. */
  function SpecialtyRequest(filter: string): (r: Option<string>)
    ensures r.None? <==> filter == ALL
    ensures r.Some? ==> r.value == filter
  {
    if filter == ALL then None else Some(filter)
  }

  /** The lower-cased name or the lower-cased specialization includes the lower-cased term. */
  predicate MatchesSearch(doc: Doctor, term: string)
  {
    Contains(Lower(doc.name), Lower(term)) || Contains(Lower(doc.specialization), Lower(term))
  }

  /** `doctors.filter(...)`: the entries that match the search term, in list order. */
  function FilterDoctors(docs: seq<Doctor>, term: string): (r: seq<Doctor>)
    ensures |r| <= |docs|
    ensures forall d :: d in r <==> d in docs && MatchesSearch(d, term)
  {
    if docs == [] then []
    else
      var rest := FilterDoctors(docs[1..], term);
      assert forall d :: d in docs <==> d == docs[0] || d in docs[1..];
      (if MatchesSearch(docs[0], term) then [docs[0]] else []) + rest
  }

  /** Every position moved one to the right. */
  function Shift(ps: seq<nat>): (r: seq<nat>)
    ensures |r| == |ps|
    ensures forall k :: 0 <= k < |ps| ==> r[k] == ps[k] + 1
  {
    if ps == [] then [] else [ps[0] + 1] + Shift(ps[1..])
  }

  /** The positions of the matching entries, in increasing order. */
  function MatchingPositions(docs: seq<Doctor>, term: string): seq<nat>
  {
    if docs == [] then []
    else (if MatchesSearch(docs[0], term) then [0] else []) + Shift(MatchingPositions(docs[1..], term))
  }

  /** `ps` lists, in increasing order, positions of `docs` whose entries make up `r`. */
  predicate SelectedAt(r: seq<Doctor>, ps: seq<nat>, docs: seq<Doctor>)
  {
    && |ps| == |r|
    && (forall k :: 0 <= k < |ps| ==> ps[k] < |docs| && r[k] == docs[ps[k]])
    && (forall k, l :: 0 <= k < l < |ps| ==> ps[k] < ps[l])
  }

  /** Prepending an entry to the list (and maybe to the selection) shifts the selection by one. */
  lemma SelectedAtCons(r: seq<Doctor>, ps: seq<nat>, docs: seq<Doctor>, keep: bool)
    requires docs != []
    requires SelectedAt(r, ps, docs[1..])
    ensures SelectedAt((if keep then [docs[0]] else []) + r, (if keep then [0] else []) + Shift(ps), docs)
  {
    var ps' := (if keep then [0] else []) + Shift(ps);
    var r' := (if keep then [docs[0]] else []) + r;
    var o := if keep then 1 else 0;
    var sh := Shift(ps);
    assert |ps'| == |r'| == |ps| + o;
    forall k | o <= k < |ps'|
      ensures ps'[k] == ps[k - o] + 1 && r'[k] == r[k - o]
    {
      assert ps'[k] == sh[k - o];
    }
    forall k | 0 <= k < |ps'|
      ensures ps'[k] < |docs| && r'[k] == docs[ps'[k]]
    {
      if k >= o {
        assert docs[1..][ps[k - o]] == docs[ps[k - o] + 1];
      }
    }
  }

  /** Position `i > 0` is selected exactly when `i - 1` was before the shift. */
  lemma ShiftedMembership(ps: seq<nat>, keep: bool, i: nat)
    requires i > 0
    ensures (i in (if keep then [0] else []) + Shift(ps)) <==> (i - 1 in ps)
  {
    var sh := Shift(ps);
    if i - 1 in ps {
      var k :| 0 <= k < |ps| && ps[k] == i - 1;
      assert sh[k] == i;
    }
    if i in sh {
      var k :| 0 <= k < |sh| && sh[k] == i;
      assert ps[k] == i - 1;
    }
  }

  /**
   * The search keeps exactly the matching positions, in their original
   * order: result entry `k` is the list entry at position `ps[k]`, the
   * positions increase, and a position is kept iff its entry matches.
   */
  lemma {:induction false} FilterSelectsMatchingPositions(docs: seq<Doctor>, term: string)
    ensures SelectedAt(FilterDoctors(docs, term), MatchingPositions(docs, term), docs)
    ensures forall i :: 0 <= i < |docs| ==> (i in MatchingPositions(docs, term) <==> MatchesSearch(docs[i], term))
  {
    if docs != [] {
      var keep := MatchesSearch(docs[0], term);
      FilterSelectsMatchingPositions(docs[1..], term);
      var r0, ps0 := FilterDoctors(docs[1..], term), MatchingPositions(docs[1..], term);
      assert FilterDoctors(docs, term) == (if keep then [docs[0]] else []) + r0;
      assert MatchingPositions(docs, term) == (if keep then [0] else []) + Shift(ps0);
      SelectedAtCons(r0, ps0, docs, keep);
      forall i | 0 <= i < |docs|
        ensures i in MatchingPositions(docs, term) <==> MatchesSearch(docs[i], term)
      {
        if i == 0 {
          assert 0 !in Shift(ps0);
        } else {
          assert docs[1..][i - 1] == docs[i];
          ShiftedMembership(ps0, keep, i);
        }
      }
    }
  }

  /** A list whose every entry matches comes back unchanged. */
  lemma {:induction false} FilterKeepsAllMatching(docs: seq<Doctor>, term: string)
    requires forall i :: 0 <= i < |docs| ==> MatchesSearch(docs[i], term)
    ensures FilterDoctors(docs, term) == docs
  {
    if docs != [] {
      assert forall i :: 0 <= i < |docs[1..]| ==> docs[1..][i] == docs[i + 1];
      FilterKeepsAllMatching(docs[1..], term);
      assert docs == [docs[0]] + docs[1..];
    }
  }

  /** Searching the search result for the same term changes nothing. */
  lemma FilterIdempotent(docs: seq<Doctor>, term: string)
    ensures FilterDoctors(FilterDoctors(docs, term), term) == FilterDoctors(docs, term)
  {
    var r := FilterDoctors(docs, term);
    assert forall i :: 0 <= i < |r| ==> r[i] in r;
    FilterKeepsAllMatching(r, term);
  }

  /** The empty term matches every entry, so the search shows the whole list. */
  lemma EmptyTermKeepsAll(docs: seq<Doctor>)
    ensures FilterDoctors(docs, "") == docs
  {
    forall i | 0 <= i < |docs|
      ensures MatchesSearch(docs[i], "")
    {
      ContainsEmpty(Lower(docs[i].name));
    }
    FilterKeepsAllMatching(docs, "");
  }

  /**
   * "Clear All Filters" sets the filter to "All" and the term to "": the
   * list is requested for no specialty and shown as fetched.
   */
  lemma ClearAllFiltersShowsFetched(fetched: seq<Doctor>)
    ensures SpecialtyRequest(ALL).None?
    ensures FilterDoctors(fetched, "") == fetched
  {
    EmptyTermKeepsAll(fetched);
  }
}
