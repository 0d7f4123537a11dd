/** Which changed files a lane may write, alone and with lanes granted to it by label. */
module Scope {
  import opened Options
  import opened Fragments

  datatype LaneScope = LaneScope(owned: seq<string>, notOwned: seq<string>)

  // ---- Longest match ----

  /** The longest matching pattern, the first of them on a tie. */
  function LongestMatch(file: string, patterns: seq<string>): Option<string> {
    if patterns == [] then None
    else
      var best, p := LongestMatch(file, patterns[..|patterns| - 1]), patterns[|patterns| - 1];
      if MatchesPath(file, p) && (best.None? || |p| > |best.value|) then Some(p) else best
  }

  method FindLongestMatch(file: string, patterns: seq<string>) returns (best: Option<string>)
    ensures best == LongestMatch(file, patterns)
  {
    best := None;
    var i := 0;
    while i < |patterns|
      invariant 0 <= i <= |patterns|
      invariant best == LongestMatch(file, patterns[..i])
    {
      assert patterns[..i + 1][..i] == patterns[..i];
      if MatchesPath(file, patterns[i]) && (best.None? || |patterns[i]| > |best.value|) {
        best := Some(patterns[i]);
      }
      i := i + 1;
    }
    assert patterns[..i] == patterns;
  }

  lemma {:induction false} LongestMatchIsLongest(file: string, patterns: seq<string>)
    ensures LongestMatch(file, patterns).None? <==> forall p :: p in patterns ==> !MatchesPath(file, p)
    ensures LongestMatch(file, patterns).Some? ==>
              var best := LongestMatch(file, patterns).value;
              best in patterns && MatchesPath(file, best) &&
              forall p :: p in patterns && MatchesPath(file, p) ==> |p| <= |best|
  {
    if patterns != [] {
      var init, last := patterns[..|patterns| - 1], patterns[|patterns| - 1];
      LongestMatchIsLongest(file, init);
      assert forall p :: p in patterns <==> p in init || p == last;
    }
  }

  // ---- One lane ----

  predicate Forbidden(file: string, neverWrite: seq<string>) {
    exists p :: p in neverWrite && MatchesSecretPath(file, p)
  }

  /** Outside the lane: excluded at least as specifically as owned, or owned by nothing when the
      lane owns anything at all. */
  predicate Strays(file: string, scope: LaneScope) {
    var owned, notOwned := LongestMatch(file, scope.owned), LongestMatch(file, scope.notOwned);
    || (notOwned.Some? && (owned.None? || |notOwned.value| >= |owned.value|))
    || (scope.owned != [] && owned.None?)
  }

  /** What ownership means: some owned pattern matches and is longer than every exclusion that
      matches; a lane that owns nothing in particular is only bound by its exclusions. */
  lemma WithinMeansOwnedLongest(file: string, scope: LaneScope)
    ensures !Strays(file, scope) <==>
              || (exists p :: p in scope.owned && MatchesPath(file, p) &&
                    forall q :: q in scope.notOwned && MatchesPath(file, q) ==> |q| < |p|)
              || (scope.owned == [] && forall q :: q in scope.notOwned ==> !MatchesPath(file, q))
  {
    LongestMatchIsLongest(file, scope.owned);
    LongestMatchIsLongest(file, scope.notOwned);
  }

  datatype ScopeCheck = ScopeCheck(forbidden: seq<string>, strayed: seq<string>)

  /** The files that satisfy `keep`, in order. */
  function Filter(files: seq<string>, keep: string -> bool): seq<string> {
    if files == [] then []
    else
      var last := files[|files| - 1];
      Filter(files[..|files| - 1], keep) + if keep(last) then [last] else []
  }

  /** The verdict of one lane on its own. */
  function Alone(changed: seq<string>, scope: LaneScope, neverWrite: seq<string>): ScopeCheck {
    ScopeCheck(Filter(changed, f => Forbidden(f, neverWrite)),
               Filter(changed, f => !Forbidden(f, neverWrite) && Strays(f, scope)))
  }

  method CheckScope(changed: seq<string>, scope: LaneScope, neverWrite: seq<string>) returns (r: ScopeCheck)
    ensures r == Alone(changed, scope, neverWrite)
  {
    var forbidden: seq<string>, strayed: seq<string> := [], [];
    var i := 0;
    while i < |changed|
      invariant 0 <= i <= |changed|
      invariant ScopeCheck(forbidden, strayed) == Alone(changed[..i], scope, neverWrite)
    {
      var f := changed[i];
      assert changed[..i + 1][..i] == changed[..i];
      i := i + 1;
      if Forbidden(f, neverWrite) {
        forbidden := forbidden + [f];
        continue;
      }
      var ownedMatch := FindLongestMatch(f, scope.owned);
      var notOwnedMatch := FindLongestMatch(f, scope.notOwned);
      if notOwnedMatch.Some? && (ownedMatch.None? || |notOwnedMatch.value| >= |ownedMatch.value|) {
        strayed := strayed + [f];
        continue;
      }
      if |scope.owned| > 0 && ownedMatch.None? {
        strayed := strayed + [f];
      }
    }
    assert changed[..i] == changed;
    r := ScopeCheck(forbidden, strayed);
  }

  // ---- With grants ----

  predicate GrantExcludes(file: string, excluded: seq<string>) {
    exists p :: p in excluded && MatchesPath(file, p)
  }

  predicate SomeGrantOwns(file: string, granted: seq<LaneScope>) {
    exists g :: g in granted && g.owned != [] && !Strays(file, g)
  }

  predicate StraysAcross(file: string, own: LaneScope, granted: seq<LaneScope>, excluded: seq<string>) {
    own.owned != [] && Strays(file, own) && (GrantExcludes(file, excluded) || !SomeGrantOwns(file, granted))
  }

  function Across(changed: seq<string>, own: LaneScope, granted: seq<LaneScope>, neverWrite: seq<string>,
                  excluded: seq<string>): ScopeCheck {
    ScopeCheck(Filter(changed, f => Forbidden(f, neverWrite)),
               Filter(changed, f => !Forbidden(f, neverWrite) && StraysAcross(f, own, granted, excluded)))
  }

  lemma AloneOne(f: string, scope: LaneScope)
    ensures Alone([f], scope, []).strayed == if Strays(f, scope) then [f] else []
  {
    var keep := (g: string) => !Forbidden(g, []) && Strays(g, scope);
    assert [f][..0] == [] && Filter([], keep) == [];
    assert !Forbidden(f, []);
  }

  method CheckScopeAcross(changed: seq<string>, own: LaneScope, grantedScopes: seq<LaneScope>, neverWrite: seq<string>,
                          excluded: seq<string>) returns (r: ScopeCheck)
    ensures r == Across(changed, own, grantedScopes, neverWrite, excluded)
  {
    var forbidden: seq<string>, strayed: seq<string> := [], [];
    var unrestricted := |own.owned| == 0;
    var i := 0;
    while i < |changed|
      invariant 0 <= i <= |changed|
      invariant ScopeCheck(forbidden, strayed) == Across(changed[..i], own, grantedScopes, neverWrite, excluded)
    {
      var f := changed[i];
      assert changed[..i + 1][..i] == changed[..i];
      i := i + 1;
      if Forbidden(f, neverWrite) {
        forbidden := forbidden + [f];
        continue;
      }
      if unrestricted {
        continue;
      }
      var outside := StraysEverywhere(f, own, grantedScopes, excluded);
      if outside {
        strayed := strayed + [f];
      }
    }
    assert changed[..i] == changed;
    r := ScopeCheck(forbidden, strayed);
  }

  /** The own lane first, then the paths no grant reaches, then each grant by itself. */
  method StraysEverywhere(f: string, own: LaneScope, grantedScopes: seq<LaneScope>, excluded: seq<string>) returns (outside: bool)
    requires own.owned != []
    ensures outside == StraysAcross(f, own, grantedScopes, excluded)
  {
    AloneOne(f, own);
    var mine := CheckScope([f], own, []);
    if |mine.strayed| == 0 {
      return false;
    }
    if GrantExcludes(f, excluded) {
      return true;
    }
    var granted := AnyGrantOwns(f, grantedScopes);
    outside := !granted;
  }

  method AnyGrantOwns(f: string, grantedScopes: seq<LaneScope>) returns (yes: bool)
    ensures yes == SomeGrantOwns(f, grantedScopes)
  {
    var i := 0;
    while i < |grantedScopes|
      invariant 0 <= i <= |grantedScopes|
      invariant forall k :: 0 <= k < i ==> grantedScopes[k].owned == [] || Strays(f, grantedScopes[k])
    {
      var g := grantedScopes[i];
      if |g.owned| > 0 {
        AloneOne(f, g);
        var theirs := CheckScope([f], g, []);
        if |theirs.strayed| == 0 {
          assert g in grantedScopes;
          return true;
        }
      }
      i := i + 1;
    }
    yes := false;
  }

  // ---- What filtering keeps ----

  lemma {:induction false} FilterMembers(files: seq<string>, keep: string -> bool)
    ensures forall f :: f in Filter(files, keep) <==> f in files && keep(f)
  {
    if files != [] {
      FilterMembers(files[..|files| - 1], keep);
      assert files == files[..|files| - 1] + [files[|files| - 1]];
    }
  }

  lemma {:induction false} FilterAgrees(files: seq<string>, a: string -> bool, b: string -> bool)
    ensures Filter(files, a) == Filter(files, b) <==> forall f :: f in files ==> (a(f) <==> b(f))
  {
    if files != [] {
      var init, last := files[..|files| - 1], files[|files| - 1];
      FilterAgrees(init, a, b);
      assert files == init + [last];
      if Filter(files, a) == Filter(files, b) {
        FilterMembers(files, a);
        FilterMembers(files, b);
      }
    }
  }

  /** `a` is what is left of `b` after crossing files out, in the same order. */
  ghost predicate Subsequence(a: seq<string>, b: seq<string>) {
    exists keep: string -> bool :: a == Filter(b, keep)
  }

  lemma {:induction false} FilterTwice(files: seq<string>, a: string -> bool, b: string -> bool)
    requires forall f :: b(f) ==> a(f)
    ensures Filter(Filter(files, a), b) == Filter(files, b)
  {
    if files != [] {
      var init, last := files[..|files| - 1], files[|files| - 1];
      FilterTwice(init, a, b);
      if a(last) {
        assert (Filter(init, a) + [last])[..|Filter(init, a)|] == Filter(init, a);
      } else {
        assert Filter(files, a) == Filter(init, a) && Filter(files, b) == Filter(init, b);
      }
    }
  }

  /** Nothing is both forbidden and strayed, nothing is invented, order is kept, and what is in
      neither list is allowed. */
  lemma ResultsPartition(changed: seq<string>, own: LaneScope, granted: seq<LaneScope>, neverWrite: seq<string>, excluded: seq<string>)
    ensures var r := Across(changed, own, granted, neverWrite, excluded);
            && Subsequence(r.forbidden, changed) && Subsequence(r.strayed, changed)
            && (forall f :: !(f in r.forbidden && f in r.strayed))
            && (forall f :: f in changed && f !in r.forbidden && f !in r.strayed ==>
                  own.owned == [] || !Strays(f, own) || (!GrantExcludes(f, excluded) && SomeGrantOwns(f, granted)))
  {
    var isForbidden := (f: string) => Forbidden(f, neverWrite);
    var strays := (f: string) => !Forbidden(f, neverWrite) && StraysAcross(f, own, granted, excluded);
    FilterMembers(changed, isForbidden);
    FilterMembers(changed, strays);
    assert Across(changed, own, granted, neverWrite, excluded) == ScopeCheck(Filter(changed, isForbidden), Filter(changed, strays));
  }

  /** The lane owns the file: an owned pattern matches it and is longer than every exclusion that does. */
  ghost predicate OwnsLongest(file: string, scope: LaneScope) {
    exists p :: p in scope.owned && MatchesPath(file, p) && forall q :: q in scope.notOwned && MatchesPath(file, q) ==> |q| < |p|
  }

  /** Exactly the files that stray: not forbidden, not the restricted lane's own, and not reached by a
      granted lane that owns them, because a grant may not reach them or because none does. */
  lemma StrayedExactly(changed: seq<string>, own: LaneScope, granted: seq<LaneScope>, neverWrite: seq<string>, excluded: seq<string>, f: string)
    ensures f in Across(changed, own, granted, neverWrite, excluded).strayed <==>
              && f in changed && (forall p :: p in neverWrite ==> !MatchesSecretPath(f, p))
              && own.owned != [] && !OwnsLongest(f, own)
              && ((exists p :: p in excluded && MatchesPath(f, p)) || forall g :: g in granted ==> g.owned == [] || !OwnsLongest(f, g))
    ensures f in Alone(changed, own, neverWrite).strayed <==>
              && f in changed && (forall p :: p in neverWrite ==> !MatchesSecretPath(f, p)) && !OwnsLongest(f, own)
              && (own.owned == [] ==> exists q :: q in own.notOwned && MatchesPath(f, q))
    ensures f in Across(changed, own, granted, neverWrite, excluded).forbidden <==> f in changed && exists p :: p in neverWrite && MatchesSecretPath(f, p)
    ensures Alone(changed, own, neverWrite).forbidden == Across(changed, own, granted, neverWrite, excluded).forbidden
  {
    var isForbidden := (g: string) => Forbidden(g, neverWrite);
    var strays := (g: string) => !Forbidden(g, neverWrite) && StraysAcross(g, own, granted, excluded);
    var straysAlone := (g: string) => !Forbidden(g, neverWrite) && Strays(g, own);
    FilterMembers(changed, isForbidden);
    FilterMembers(changed, strays);
    FilterMembers(changed, straysAlone);
    assert Across(changed, own, granted, neverWrite, excluded) == ScopeCheck(Filter(changed, isForbidden), Filter(changed, strays));
    assert Alone(changed, own, neverWrite) == ScopeCheck(Filter(changed, isForbidden), Filter(changed, straysAlone));
    StraysAcrossMeans(f, own, granted, excluded);
    StraysMeans(f, own);
  }

  lemma StraysMeans(f: string, scope: LaneScope)
    ensures Strays(f, scope) <==>
              !OwnsLongest(f, scope) && (scope.owned == [] ==> exists q :: q in scope.notOwned && MatchesPath(f, q))
  {
    WithinMeansOwnedLongest(f, scope);
  }

  lemma StraysAcrossMeans(f: string, own: LaneScope, granted: seq<LaneScope>, excluded: seq<string>)
    ensures StraysAcross(f, own, granted, excluded) <==>
              && own.owned != [] && !OwnsLongest(f, own)
              && ((exists p :: p in excluded && MatchesPath(f, p)) || forall g :: g in granted ==> g.owned == [] || !OwnsLongest(f, g))
  {
    StraysMeans(f, own);
    forall g | g in granted ensures g.owned != [] ==> (Strays(f, g) <==> !OwnsLongest(f, g)) {
      StraysMeans(f, g);
    }
  }

  // ---- What grants can and cannot do ----

  /** Without grants the two checks agree exactly when the lane owns something, or no allowed
      file meets one of its exclusions: an unrestricted lane's exclusions are dropped by the
      grant-aware check. */
  lemma NoGrantsAgree(changed: seq<string>, own: LaneScope, neverWrite: seq<string>, excluded: seq<string>)
    ensures Across(changed, own, [], neverWrite, excluded) == Alone(changed, own, neverWrite) <==>
              || own.owned != []
              || forall f, q :: f in changed && !Forbidden(f, neverWrite) && q in own.notOwned ==> !MatchesPath(f, q)
  {
    var a := (f: string) => !Forbidden(f, neverWrite) && StraysAcross(f, own, [], excluded);
    var b := (f: string) => !Forbidden(f, neverWrite) && Strays(f, own);
    FilterAgrees(changed, a, b);
    assert Across(changed, own, [], neverWrite, excluded).strayed == Filter(changed, a);
    assert Alone(changed, own, neverWrite).strayed == Filter(changed, b);
    forall f | f in changed
      ensures own.owned != [] ==> (a(f) <==> b(f))
      ensures own.owned == [] ==> !a(f) && (b(f) <==> !Forbidden(f, neverWrite) && exists q :: q in own.notOwned && MatchesPath(f, q))
    {
      LongestMatchIsLongest(f, own.owned);
      LongestMatchIsLongest(f, own.notOwned);
    }
    if own.owned == [] && Filter(changed, a) == Filter(changed, b) {
      forall f, q | f in changed && !Forbidden(f, neverWrite) && q in own.notOwned ensures !MatchesPath(f, q) {
        assert a(f) <==> b(f);
      }
    }
  }

  /** More grants never change what is forbidden and only cross out strayed files. */
  lemma GrantsOnlyShrinkStrayed(changed: seq<string>, own: LaneScope, few: seq<LaneScope>, more: seq<LaneScope>,
                                neverWrite: seq<string>, excluded: seq<string>)
    requires forall g :: g in few ==> g in more
    ensures var before, after := Across(changed, own, few, neverWrite, excluded), Across(changed, own, more, neverWrite, excluded);
            && after.forbidden == before.forbidden
            && Subsequence(after.strayed, before.strayed)
            && (forall f :: f in before.strayed && f !in after.strayed ==>
                  !GrantExcludes(f, excluded) && exists g :: g in more && g !in few && g.owned != [] && !Strays(f, g))
  {
    var a := (f: string) => !Forbidden(f, neverWrite) && StraysAcross(f, own, few, excluded);
    var b := (f: string) => !Forbidden(f, neverWrite) && StraysAcross(f, own, more, excluded);
    FilterTwice(changed, a, b);
    FilterMembers(changed, a);
    FilterMembers(changed, b);
    assert Across(changed, own, few, neverWrite, excluded).strayed == Filter(changed, a);
    assert Across(changed, own, more, neverWrite, excluded).strayed == Filter(changed, b);
  }

  /** Granting a lane that owns nothing changes nothing. */
  lemma EmptyGrantIsNothing(changed: seq<string>, own: LaneScope, granted: seq<LaneScope>, empty: LaneScope,
                            neverWrite: seq<string>, excluded: seq<string>)
    requires empty.owned == []
    ensures Across(changed, own, granted + [empty], neverWrite, excluded) == Across(changed, own, granted, neverWrite, excluded)
  {
    var a := (f: string) => !Forbidden(f, neverWrite) && StraysAcross(f, own, granted + [empty], excluded);
    var b := (f: string) => !Forbidden(f, neverWrite) && StraysAcross(f, own, granted, excluded);
    forall f ensures SomeGrantOwns(f, granted + [empty]) <==> SomeGrantOwns(f, granted) {
      assert forall g :: g in granted + [empty] <==> g in granted || g == empty;
    }
    FilterAgrees(changed, a, b);
    assert Across(changed, own, granted + [empty], neverWrite, excluded).strayed == Filter(changed, a);
    assert Across(changed, own, granted, neverWrite, excluded).strayed == Filter(changed, b);
  }

  /** A path grants may not reach passes a restricted lane only by that lane's own patterns. */
  lemma ExcludedOnlyByOwnLane(changed: seq<string>, own: LaneScope, granted: seq<LaneScope>, neverWrite: seq<string>,
                              excluded: seq<string>, f: string)
    requires own.owned != [] && f in changed && GrantExcludes(f, excluded)
    ensures var r := Across(changed, own, granted, neverWrite, excluded);
            f !in r.forbidden && f !in r.strayed <==>
              !Forbidden(f, neverWrite) &&
              exists p :: p in own.owned && MatchesPath(f, p) && forall q :: q in own.notOwned && MatchesPath(f, q) ==> |q| < |p|
  {
    var isForbidden := (f: string) => Forbidden(f, neverWrite);
    var strays := (f: string) => !Forbidden(f, neverWrite) && StraysAcross(f, own, granted, excluded);
    FilterMembers(changed, isForbidden);
    FilterMembers(changed, strays);
    assert Across(changed, own, granted, neverWrite, excluded) == ScopeCheck(Filter(changed, isForbidden), Filter(changed, strays));
    WithinMeansOwnedLongest(f, own);
  }

  // ---- Which lanes a PR's labels grant ----

  const SCOPE_GRANT_PREFIX := "scope:"

  datatype KnownLane = KnownLane(id: string, scope: LaneScope)

  /** What ECMAScript's trimming removes: its white space and its line terminators. */
  predicate Blank(c: char) {
    || '\t' <= c <= '\r'
    || c == ' ' || c == '\U{a0}' || c == '\U{1680}' || '\U{2000}' <= c <= '\U{200a}'
    || c == '\U{2028}' || c == '\U{2029}' || c == '\U{202f}' || c == '\U{205f}' || c == '\U{3000}' || c == '\U{feff}'
  }

  function TrimStart(s: string): string {
    if s != "" && Blank(s[0]) then TrimStart(s[1..]) else s
  }

  function TrimEnd(s: string): string {
    if s != "" && Blank(s[|s| - 1]) then TrimEnd(s[..|s| - 1]) else s
  }

  /** The lane id a label asks for, if it is a grant label at all. */
  function GrantOf(l: string): Option<string> {
    if SCOPE_GRANT_PREFIX <= l then Some(TrimEnd(TrimStart(l[|SCOPE_GRANT_PREFIX|..]))) else None
  }

  ghost predicate AllBlank(s: string) {
    forall c :: c in s ==> Blank(c)
  }

  lemma {:induction false} TrimStartDrops(blanks: string, s: string)
    requires AllBlank(blanks) && (s != "" ==> !Blank(s[0]))
    ensures TrimStart(blanks + s) == s
  {
    if blanks == "" {
      assert blanks + s == s;
    } else {
      assert (blanks + s)[0] == blanks[0] && blanks[0] in blanks && (blanks + s)[1..] == blanks[1..] + s;
      TrimStartDrops(blanks[1..], s);
    }
  }

  lemma {:induction false} TrimEndDrops(s: string, blanks: string)
    requires AllBlank(blanks) && (s != "" ==> !Blank(s[|s| - 1]))
    ensures TrimEnd(s + blanks) == s
    decreases |blanks|
  {
    if blanks == "" {
      assert s + blanks == s;
    } else {
      var init, last := blanks[..|blanks| - 1], blanks[|blanks| - 1];
      assert last in blanks && (s + blanks)[|s + blanks| - 1] == last && (s + blanks)[..|s + blanks| - 1] == s + init;
      TrimEndDrops(s, init);
    }
  }

  /** A label grants the lane it names after `scope:`, blanks around the name aside; any other label
      grants nothing. */
  lemma GrantNamesLane(before: string, id: string, after: string, other: string)
    requires AllBlank(before) && AllBlank(after) && id != "" && !Blank(id[0]) && !Blank(id[|id| - 1])
    ensures GrantOf("scope:" + (before + (id + after))) == Some(id)
    ensures !(SCOPE_GRANT_PREFIX <= other) ==> GrantOf(other).None?
  {
    var l := "scope:" + (before + (id + after));
    assert SCOPE_GRANT_PREFIX <= l && l[|SCOPE_GRANT_PREFIX|..] == before + (id + after);
    TrimStartDrops(before, id + after);
    TrimEndDrops(id, after);
  }

  /** The first known lane with this id. */
  function FindLane(lanes: seq<KnownLane>, id: string): (r: Option<KnownLane>)
    ensures r.Some? ==> r.value in lanes && r.value.id == id
    ensures r.None? ==> forall l :: l in lanes ==> l.id != id
  {
    if lanes == [] then None else if lanes[0].id == id then Some(lanes[0]) else FindLane(lanes[1..], id)
  }

  /** Unreadable labels, unknown lanes, the PR's own lane and lanes that own nothing grant nothing;
      every other label grants its lane, once. */
  method ResolveGrantedLanes(labels: Option<seq<string>>, lanes: seq<KnownLane>, ownId: string) returns (granted: seq<KnownLane>)
    ensures forall i, j :: 0 <= i < j < |granted| ==> granted[i].id != granted[j].id
    ensures labels.None? ==> granted == []
    ensures labels.Some? ==> forall g :: g in granted <==>
              && FindLane(lanes, g.id) == Some(g) && g.scope.owned != [] && g.id != ownId
              && exists l :: l in labels.value && GrantOf(l) == Some(g.id)
  {
    granted := [];
    if labels.None? {
      return;
    }
    var i := 0;
    while i < |labels.value|
      invariant 0 <= i <= |labels.value|
      invariant forall j, k :: 0 <= j < k < |granted| ==> granted[j].id != granted[k].id
      invariant forall g :: g in granted <==>
                  && FindLane(lanes, g.id) == Some(g) && g.scope.owned != [] && g.id != ownId
                  && exists l :: l in labels.value[..i] && GrantOf(l) == Some(g.id)
    {
      var id := GrantOf(labels.value[i]);
      assert labels.value[..i + 1] == labels.value[..i] + [labels.value[i]];
      i := i + 1;
      if id.None? || id.value == ownId {
        continue;
      }
      var lane := FindLane(lanes, id.value);
      if lane.None? || |lane.value.scope.owned| == 0 {
        continue;
      }
      if lane.value !in granted {
        assert forall g :: g in granted && g.id == id.value ==> g == lane.value;
        granted := granted + [lane.value];
      }
    }
    assert labels.value[..i] == labels.value;
  }
}
