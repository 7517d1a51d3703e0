/**
 Resolving the refs of a selective apply - short SHAs and "start..end" ranges -
 against the commits beyond the baseline (copyflow/apply.go).
 */
module RefResolution {
  import opened Results

  datatype Commit = Commit(sha: string, subject: string)

  datatype RefError = NotFound(missing: string) | Ambiguous(many: string) | Reversed(before: string, after: string)

  // strings.ToLower, on the ASCII letters a SHA is made of.
  function Lower(s: string): (r: string)
    ensures |r| == |s|
  {
    seq(|s|, i requires 0 <= i < |s| => LowerChar(s[i]))
  }

  function LowerChar(c: char): char {
    if 'A' <= c <= 'Z' then c + 32 as char else c
  }

  // What git log guarantees of a listing: SHAs are not empty and all different.
  ghost predicate Listing(commits: seq<Commit>) {
    && (forall i :: 0 <= i < |commits| ==> commits[i].sha != "")
    && (forall i, j :: 0 <= i < j < |commits| ==> Lower(commits[i].sha) != Lower(commits[j].sha))
  }

  // ---------- meaning of a ref ----------

  predicate Matches(ref: string, c: Commit) {
    Lower(ref) <= Lower(c.sha)
  }

  ghost predicate OnlyMatch(ref: string, commits: seq<Commit>, i: nat) {
    && i < |commits| && Matches(ref, commits[i])
    && forall j :: 0 <= j < |commits| && j != i ==> !Matches(ref, commits[j])
  }

  // The commit a short SHA names, if exactly one does.
  ghost function Named(ref: string, commits: seq<Commit>): (r: Option<nat>)
    ensures r.Some? ==> OnlyMatch(ref, commits, r.value)
    ensures r.None? ==> forall i: nat :: !OnlyMatch(ref, commits, i)
  {
    if i: nat :| OnlyMatch(ref, commits, i) then Some(i) else None
  }

  // Index of the first ".." in ref, |ref| when there is none.
  function DotsAt(ref: string, from: nat): (i: nat)
    requires from <= |ref|
    ensures from <= i <= |ref|
    decreases |ref| - from
  {
    if from + 1 >= |ref| then |ref|
    else if ref[from] == '.' && ref[from + 1] == '.' then from
    else DotsAt(ref, from + 1)
  }

  datatype Cut = Single(ref: string) | Range(before: string, after: string)

  // strings.Cut(ref, "..").
  function CutRef(ref: string): Cut {
    var i := DotsAt(ref, 0);
    if i + 2 <= |ref| then Range(ref[..i], ref[i + 2..]) else Single(ref)
  }

  ghost predicate Resolves(ref: string, commits: seq<Commit>) {
    match CutRef(ref)
    case Single(short) => Named(short, commits).Some?
    case Range(a, b) =>
      && Named(a, commits).Some? && Named(b, commits).Some?
      && Named(a, commits).value <= Named(b, commits).value
  }

  // The commits a resolving ref selects: the one named, or those after the start
  // up to and including the end of a range.
  ghost predicate Selects(ref: string, commits: seq<Commit>, i: nat) {
    match CutRef(ref)
    case Single(short) => Named(short, commits) == Some(i)
    case Range(a, b) =>
      && Named(a, commits).Some? && Named(b, commits).Some?
      && Named(a, commits).value < i <= Named(b, commits).value
  }

  ghost predicate AllResolve(refs: seq<string>, commits: seq<Commit>) {
    forall r :: r in refs ==> Resolves(r, commits)
  }

  // Which ref selects which position.
  type Selector = (string, nat) -> bool

  ghost function SelectorOf(commits: seq<Commit>): Selector {
    (r: string, i: nat) => Selects(r, commits, i)
  }

  ghost predicate SomeSelects(refs: seq<string>, sel: Selector, i: nat) {
    exists r :: r in refs && sel(r, i)
  }

  // The selected commits among the first n, in history order.
  ghost function Chosen(refs: seq<string>, sel: Selector, commits: seq<Commit>, n: nat): seq<Commit>
    requires n <= |commits|
  {
    if n == 0 then []
    else
      Chosen(refs, sel, commits, n - 1)
      + (if SomeSelects(refs, sel, n - 1) then [commits[n - 1]] else [])
  }

  // What ResolveRefs returns when every ref resolves.
  ghost function Resolved(refs: seq<string>, commits: seq<Commit>): seq<Commit> {
    Chosen(refs, SelectorOf(commits), commits, |commits|)
  }

  // ---------- the code ----------

  ghost predicate Index(commits: seq<Commit>, shaIndex: map<string, nat>) {
    && (forall i :: 0 <= i < |commits| ==>
          Lower(commits[i].sha) in shaIndex && shaIndex[Lower(commits[i].sha)] == i)
    && (forall sha :: sha in shaIndex ==>
          shaIndex[sha] < |commits| && Lower(commits[shaIndex[sha]].sha) == sha)
  }

  method BuildShaIndex(commits: seq<Commit>) returns (idx: map<string, nat>)
    requires Listing(commits)
    ensures Index(commits, idx)
  {
    idx := map[];
    for i := 0 to |commits|
      invariant Index(commits[..i], idx)
    {
      idx := idx[Lower(commits[i].sha) := i];
    }
    assert commits[..|commits|] == commits;
  }

  // resolveShortRef: returns the lowercased SHA.
  method ResolveShortRef(ref: string, commits: seq<Commit>) returns (r: Result<string, RefError>)
    requires Listing(commits)
    ensures r.Ok? <==> Named(ref, commits).Some?
    ensures r.Ok? ==> r.value == Lower(commits[Named(ref, commits).value].sha)
    ensures r.Err? ==> r.error == NotFound(Lower(ref)) || r.error == Ambiguous(Lower(ref))
    ensures r == Err(NotFound(Lower(ref))) ==> forall i :: 0 <= i < |commits| ==> !Matches(ref, commits[i])
    ensures r == Err(Ambiguous(Lower(ref))) ==>
              exists i, j :: 0 <= i < j < |commits| && Matches(ref, commits[i]) && Matches(ref, commits[j])
  {
    var low := Lower(ref);
    var found := "";
    ghost var at: nat := 0;
    for i := 0 to |commits|
      invariant found == "" ==> forall j :: 0 <= j < i ==> !Matches(ref, commits[j])
      invariant found != "" ==>
                  && at < i && Matches(ref, commits[at]) && found == Lower(commits[at].sha)
                  && forall j :: 0 <= j < i && j != at ==> !Matches(ref, commits[j])
    {
      if low <= Lower(commits[i].sha) {
        if found != "" {
          assert Matches(ref, commits[at]) && Matches(ref, commits[i]) && at != i;
          return Err(Ambiguous(low));
        }
        found := Lower(commits[i].sha);
        at := i;
      }
    }
    if found == "" {
      return Err(NotFound(low));
    }
    assert OnlyMatch(ref, commits, at);
    return Ok(found);
  }

  // The selection holds exactly the lowercased SHAs of the chosen commits.
  ghost predicate Marks(selected: set<string>, commits: seq<Commit>, refs: seq<string>, sel: Selector) {
    forall i :: 0 <= i < |commits| ==>
      (Lower(commits[i].sha) in selected <==> SomeSelects(refs, sel, i))
  }

  method SelectRefRange(before: string, after: string, commits: seq<Commit>, shaIndex: map<string, nat>,
                        selected: set<string>)
    returns (r: Result<set<string>, RefError>)
    requires Listing(commits) && Index(commits, shaIndex)
    ensures r.Ok? <==> && Named(before, commits).Some? && Named(after, commits).Some?
                       && Named(before, commits).value <= Named(after, commits).value
    ensures (&& Named(before, commits).Some? && Named(after, commits).Some?
             && Named(before, commits).value > Named(after, commits).value) ==> r == Err(Reversed(before, after))
    ensures r.Ok? ==>
              forall i :: 0 <= i < |commits| ==>
                (Lower(commits[i].sha) in r.value
                 <==> || Lower(commits[i].sha) in selected
                      || Named(before, commits).value < i <= Named(after, commits).value)
  {
    var start := ResolveShortRef(before, commits);
    if start.Err? {
      return Err(start.error);
    }
    var end := ResolveShortRef(after, commits);
    if end.Err? {
      return Err(end.error);
    }
    var startIdx, endIdx := shaIndex[start.value], shaIndex[end.value];
    if startIdx > endIdx {
      return Err(Reversed(before, after));
    }
    var marked := selected;
    for i := startIdx + 1 to endIdx + 1
      invariant forall j :: 0 <= j < |commits| ==>
                  (Lower(commits[j].sha) in marked <==> Lower(commits[j].sha) in selected || startIdx < j < i)
    {
      marked := marked + {Lower(commits[i].sha)};
    }
    return Ok(marked);
  }

  lemma OneMoreRef(refs: seq<string>, n: nat, sel: Selector, i: nat)
    requires n < |refs|
    ensures SomeSelects(refs[..n + 1], sel, i) <==> SomeSelects(refs[..n], sel, i) || sel(refs[n], i)
  {
    assert refs[..n + 1] == refs[..n] + [refs[n]];
  }

  lemma MarksGrow(selected: set<string>, more: set<string>, commits: seq<Commit>, refs: seq<string>, n: nat,
                  sel: Selector)
    requires n < |refs| && Marks(selected, commits, refs[..n], sel)
    requires forall i :: 0 <= i < |commits| ==>
               (Lower(commits[i].sha) in more <==> Lower(commits[i].sha) in selected || sel(refs[n], i))
    ensures Marks(more, commits, refs[..n + 1], sel)
  {
    forall i | 0 <= i < |commits|
      ensures Lower(commits[i].sha) in more <==> SomeSelects(refs[..n + 1], sel, i)
    {
      OneMoreRef(refs, n, sel, i);
    }
  }

  // The body of selectRefs' loop.
  method SelectRef(ref: string, commits: seq<Commit>, shaIndex: map<string, nat>, selected: set<string>)
    returns (r: Result<set<string>, RefError>)
    requires Listing(commits) && Index(commits, shaIndex)
    ensures r.Ok? <==> Resolves(ref, commits)
    ensures r.Ok? ==>
              forall i :: 0 <= i < |commits| ==>
                (Lower(commits[i].sha) in r.value
                 <==> Lower(commits[i].sha) in selected || SelectorOf(commits)(ref, i))
  {
    match CutRef(ref)
    case Range(a, b) =>
      r := SelectRefRange(a, b, commits, shaIndex, selected);
    case Single(short) =>
      var sha := ResolveShortRef(short, commits);
      return if sha.Err? then Err(sha.error) else Ok(selected + {sha.value});
  }

  method SelectRefs(refs: seq<string>, commits: seq<Commit>, shaIndex: map<string, nat>)
    returns (r: Result<set<string>, RefError>)
    requires Listing(commits) && Index(commits, shaIndex)
    ensures r.Ok? <==> AllResolve(refs, commits)
    ensures r.Ok? ==> Marks(r.value, commits, refs, SelectorOf(commits))
  {
    var selected: set<string> := {};
    ghost var sel := SelectorOf(commits);
    for n := 0 to |refs|
      invariant AllResolve(refs[..n], commits)
      invariant Marks(selected, commits, refs[..n], sel)
    {
      var more := SelectRef(refs[n], commits, shaIndex, selected);
      if more.Err? {
        assert refs[n] in refs;
        return Err(more.error);
      }
      assert refs[..n + 1] == refs[..n] + [refs[n]];
      MarksGrow(selected, more.value, commits, refs, n, sel);
      selected := more.value;
    }
    assert refs[..|refs|] == refs;
    return Ok(selected);
  }

  // ResolveRefs, once the commits have been listed.
  method ResolveRefs(refs: seq<string>, commits: seq<Commit>) returns (r: Result<seq<Commit>, RefError>)
    requires Listing(commits)
    ensures r.Ok? <==> AllResolve(refs, commits)
    ensures r.Ok? ==> r.value == Resolved(refs, commits)
  {
    var shaIndex := BuildShaIndex(commits);
    var selected := SelectRefs(refs, commits, shaIndex);
    if selected.Err? {
      return Err(selected.error);
    }
    var result := [];
    for i := 0 to |commits|
      invariant result == Chosen(refs, SelectorOf(commits), commits, i)
    {
      if Lower(commits[i].sha) in selected.value {
        result := result + [commits[i]];
      }
    }
    return Ok(result);
  }

  // ---------- what the result is ----------

  lemma {:induction false} ChosenExactly(refs: seq<string>, sel: Selector, commits: seq<Commit>, n: nat, i: nat)
    requires Listing(commits) && n <= |commits| && i < |commits|
    ensures commits[i] in Chosen(refs, sel, commits, n) <==> i < n && SomeSelects(refs, sel, i)
  {
    if n > 0 {
      ChosenExactly(refs, sel, commits, n - 1, i);
      if i != n - 1 {
        assert Lower(commits[i].sha) != Lower(commits[n - 1].sha);
        assert commits[i] != commits[n - 1];
      }
    }
  }

  // Strictly increasing positions in the history: ordered, no duplicates.
  ghost predicate InHistoryOrder(result: seq<Commit>, commits: seq<Commit>, at: seq<nat>) {
    && |at| == |result|
    && (forall k :: 0 <= k < |at| ==> at[k] < |commits| && result[k] == commits[at[k]])
    && (forall j, k :: 0 <= j < k < |at| ==> at[j] < at[k])
  }

  lemma OrderGrows(result: seq<Commit>, commits: seq<Commit>, at: seq<nat>, last: nat, longer: seq<Commit>)
    requires InHistoryOrder(result, commits, at) && last < |commits|
    requires forall k :: 0 <= k < |at| ==> at[k] < last
    requires longer == result + [commits[last]]
    ensures InHistoryOrder(longer, commits, at + [last])
  {
  }

  lemma ChosenStep(refs: seq<string>, sel: Selector, commits: seq<Commit>, n: nat)
    requires 0 < n <= |commits|
    ensures Chosen(refs, sel, commits, n) == Chosen(refs, sel, commits, n - 1)
         || Chosen(refs, sel, commits, n) == Chosen(refs, sel, commits, n - 1) + [commits[n - 1]]
  {
  }

  lemma {:induction false} ChosenInOrder(refs: seq<string>, sel: Selector, commits: seq<Commit>, n: nat)
    returns (at: seq<nat>)
    requires n <= |commits|
    ensures InHistoryOrder(Chosen(refs, sel, commits, n), commits, at)
    ensures forall k :: 0 <= k < |at| ==> at[k] < n
  {
    if n == 0 {
      at := [];
    } else {
      at := ChosenInOrder(refs, sel, commits, n - 1);
      ChosenStep(refs, sel, commits, n);
      var before, now := Chosen(refs, sel, commits, n - 1), Chosen(refs, sel, commits, n);
      if now != before {
        OrderGrows(before, commits, at, n - 1, now);
        at := at + [n - 1];
      }
    }
  }

  // The result is, in history order and without duplicates, exactly the commits
  // that some ref names or has in its range.
  lemma ResolutionIsExact(refs: seq<string>, commits: seq<Commit>)
    requires Listing(commits)
    ensures exists at :: InHistoryOrder(Resolved(refs, commits), commits, at)
    ensures forall i: nat :: i < |commits| ==>
              (commits[i] in Resolved(refs, commits) <==> exists r :: r in refs && Selects(r, commits, i))
  {
    var sel := SelectorOf(commits);
    var at := ChosenInOrder(refs, sel, commits, |commits|);
    assert InHistoryOrder(Resolved(refs, commits), commits, at);
    forall i: nat | i < |commits|
      ensures commits[i] in Resolved(refs, commits) <==> exists r :: r in refs && Selects(r, commits, i)
    {
      ChosenExactly(refs, sel, commits, |commits|, i);
      assert forall r :: sel(r, i) == Selects(r, commits, i);
    }
  }

  ghost predicate SameRefs(refs: seq<string>, others: seq<string>) {
    forall r :: r in refs <==> r in others
  }

  lemma {:induction false} SameRefsSameChoice(refs: seq<string>, others: seq<string>, sel: Selector,
                                              commits: seq<Commit>, n: nat)
    requires SameRefs(refs, others) && n <= |commits|
    ensures Chosen(refs, sel, commits, n) == Chosen(others, sel, commits, n)
  {
    if n > 0 {
      SameRefsSameChoice(refs, others, sel, commits, n - 1);
      assert SomeSelects(refs, sel, n - 1) <==> SomeSelects(others, sel, n - 1);
    }
  }

  // Success and result depend on the set of refs alone: not on order or repetition.
  lemma OrderAndRepetitionIrrelevant(refs: seq<string>, others: seq<string>, commits: seq<Commit>)
    requires SameRefs(refs, others)
    ensures AllResolve(refs, commits) <==> AllResolve(others, commits)
    ensures Resolved(refs, commits) == Resolved(others, commits)
  {
    SameRefsSameChoice(refs, others, SelectorOf(commits), commits, |commits|);
  }

  // ---------- refs spelled out ----------

  predicate SameIgnoringCase(c: char, d: char) {
    || c == d
    || ('A' <= c <= 'Z' && d == c + 32 as char)
    || ('A' <= d <= 'Z' && c == d + 32 as char)
  }

  lemma LowerEqual(c: char, d: char)
    ensures LowerChar(c) == LowerChar(d) <==> SameIgnoringCase(c, d)
  {
  }

  // A ref matches the commits whose SHA it begins, letter case aside.
  lemma MatchesExactly(ref: string, c: Commit)
    ensures Matches(ref, c)
       <==> |ref| <= |c.sha| && forall i :: 0 <= i < |ref| ==> SameIgnoringCase(ref[i], c.sha[i])
  {
    if |ref| <= |c.sha| {
      forall i | 0 <= i < |ref|
        ensures Lower(ref)[i] == Lower(c.sha)[i] <==> SameIgnoringCase(ref[i], c.sha[i])
      {
        LowerEqual(ref[i], c.sha[i]);
      }
      assert Matches(ref, c) <==> forall i :: 0 <= i < |ref| ==> Lower(ref)[i] == Lower(c.sha)[i];
    }
  }

  predicate DotsStand(ref: string, i: nat) {
    i + 2 <= |ref| && ref[i] == '.' && ref[i + 1] == '.'
  }

  lemma {:induction false} DotsAtExactly(ref: string, from: nat)
    requires from <= |ref|
    ensures var i := DotsAt(ref, from);
            && (i < |ref| ==> DotsStand(ref, i))
            && (forall j: nat :: from <= j < i ==> !DotsStand(ref, j))
    decreases |ref| - from
  {
    if from + 1 < |ref| && !DotsStand(ref, from) {
      DotsAtExactly(ref, from + 1);
    }
  }

  // A ref is a range around its first two dots, and a single one when it has none.
  lemma CutExactly(ref: string)
    ensures CutRef(ref).Single? <==> forall j: nat :: !DotsStand(ref, j)
    ensures CutRef(ref).Single? ==> CutRef(ref) == Single(ref)
    ensures CutRef(ref).Range? ==>
              var a, b := CutRef(ref).before, CutRef(ref).after;
              ref == a + ".." + b && forall j: nat :: j < |a| ==> !DotsStand(ref, j)
  {
    DotsAtExactly(ref, 0);
    var i := DotsAt(ref, 0);
    if i + 2 <= |ref| {
      assert DotsStand(ref, i);
      assert ref == ref[..i] + ".." + ref[i + 2..];
    }
  }

  lemma NamedIs(ref: string, commits: seq<Commit>, i: nat)
    requires OnlyMatch(ref, commits, i)
    ensures Named(ref, commits) == Some(i)
  {
  }

  // The commits from lo on, before hi, among the first n.
  function Stretch(commits: seq<Commit>, lo: nat, hi: nat, n: nat): seq<Commit>
    requires lo <= hi <= |commits| && n <= |commits|
  {
    if n <= lo then [] else commits[lo..if n < hi then n else hi]
  }

  lemma StretchStep(commits: seq<Commit>, lo: nat, hi: nat, n: nat)
    requires lo <= hi <= |commits| && 0 < n <= |commits|
    ensures Stretch(commits, lo, hi, n)
         == if lo < n <= hi then Stretch(commits, lo, hi, n - 1) + [commits[n - 1]]
            else Stretch(commits, lo, hi, n - 1)
  {
  }

  lemma {:induction false} ChosenStretch(refs: seq<string>, sel: Selector, commits: seq<Commit>, lo: nat, hi: nat,
                                         n: nat)
    requires lo <= hi <= |commits| && n <= |commits|
    requires forall k: nat :: k < n ==> (SomeSelects(refs, sel, k) <==> lo <= k < hi)
    ensures Chosen(refs, sel, commits, n) == Stretch(commits, lo, hi, n)
  {
    if n > 0 {
      ChosenStretch(refs, sel, commits, lo, hi, n - 1);
      OneMoreChosen(refs, sel, commits, n);
      StretchStep(commits, lo, hi, n);
      assert SomeSelects(refs, sel, n - 1) <==> lo < n <= hi;
    }
  }

  lemma OneMoreChosen(refs: seq<string>, sel: Selector, commits: seq<Commit>, n: nat)
    requires 0 < n <= |commits|
    ensures Chosen(refs, sel, commits, n)
         == if SomeSelects(refs, sel, n - 1) then Chosen(refs, sel, commits, n - 1) + [commits[n - 1]]
            else Chosen(refs, sel, commits, n - 1)
  {
  }

  // A ref without dots that one commit matches resolves to that commit alone.
  lemma SingleResolves(ref: string, commits: seq<Commit>, i: nat)
    requires (forall j: nat :: !DotsStand(ref, j)) && OnlyMatch(ref, commits, i)
    ensures AllResolve([ref], commits) && Resolved([ref], commits) == [commits[i]]
  {
    CutExactly(ref);
    NamedIs(ref, commits, i);
    StretchChosen(ref, SelectorOf(commits), commits, i, i + 1);
    assert commits[i..i + 1] == [commits[i]];
  }

  lemma CutIs(before: string, after: string)
    requires forall j: nat :: j < |before| ==> !DotsStand(before + ".." + after, j)
    ensures CutRef(before + ".." + after) == Range(before, after)
  {
    var ref := before + ".." + after;
    CutExactly(ref);
    DotsAtExactly(ref, 0);
    assert DotsStand(ref, |before|);
    assert ref[..|before|] == before && ref[|before| + 2..] == after;
  }

  // "start..end" resolves exactly when the start is not after the end, to the commits
  // after the start up to and including the end.
  lemma RangeResolves(before: string, after: string, commits: seq<Commit>, i: nat, j: nat)
    requires forall k: nat :: k < |before| ==> !DotsStand(before + ".." + after, k)
    requires OnlyMatch(before, commits, i) && OnlyMatch(after, commits, j)
    ensures AllResolve([before + ".." + after], commits) <==> i <= j
    ensures i <= j ==> Resolved([before + ".." + after], commits) == commits[i + 1..j + 1]
  {
    var ref := before + ".." + after;
    RangeMeans(before, after, commits, i, j);
    RangeChosen(ref, commits, i, j);
  }

  lemma RangeMeans(before: string, after: string, commits: seq<Commit>, i: nat, j: nat)
    requires forall k: nat :: k < |before| ==> !DotsStand(before + ".." + after, k)
    requires OnlyMatch(before, commits, i) && OnlyMatch(after, commits, j)
    ensures Resolves(before + ".." + after, commits) <==> i <= j
    ensures forall k: nat :: Selects(before + ".." + after, commits, k) <==> i < k <= j
  {
    CutIs(before, after);
    NamedIs(before, commits, i);
    NamedIs(after, commits, j);
  }

  lemma OneRef(ref: string, sel: Selector, k: nat)
    ensures SomeSelects([ref], sel, k) <==> sel(ref, k)
  {
    assert ref in [ref];
  }

  lemma RangeChosen(ref: string, commits: seq<Commit>, i: nat, j: nat)
    requires i < |commits| && j < |commits|
    requires forall k: nat :: Selects(ref, commits, k) <==> i < k <= j
    ensures AllResolve([ref], commits) <==> Resolves(ref, commits)
    ensures i <= j ==> Resolved([ref], commits) == commits[i + 1..j + 1]
  {
    assert ref in [ref];
    if i <= j {
      StretchChosen(ref, SelectorOf(commits), commits, i + 1, j + 1);
    }
  }

  lemma StretchChosen(ref: string, sel: Selector, commits: seq<Commit>, lo: nat, hi: nat)
    requires lo <= hi <= |commits| && forall k: nat :: sel(ref, k) <==> lo <= k < hi
    ensures Chosen([ref], sel, commits, |commits|) == commits[lo..hi]
  {
    forall k: nat | k < |commits|
      ensures SomeSelects([ref], sel, k) <==> lo <= k < hi
    {
      OneRef(ref, sel, k);
    }
    ChosenStretch([ref], sel, commits, lo, hi, |commits|);
  }
}
