/** The names under which review verdicts are cached: one namespace per review set. */
module ReviewCache {
  import opened Options

  /** SHA-256, taken to be injective. */
  datatype Digest = Sha256(preimage: string)

  // ---- Sorting and deduplicating names ----

  /** JavaScript's string order: by code unit, a proper prefix first. */
  predicate Less(a: string, b: string) {
    if b == "" then false
    else if a == "" then true
    else a[0] < b[0] || (a[0] == b[0] && Less(a[1..], b[1..]))
  }

  lemma {:induction false} LessTrichotomy(a: string, b: string)
    ensures Less(a, b) || a == b || Less(b, a)
    ensures !(Less(a, b) && Less(b, a)) && !Less(a, a)
  {
    if a != "" && b != "" {
      LessTrichotomy(a[1..], b[1..]);
      LessTrichotomy(a[1..], a[1..]);
      assert a == [a[0]] + a[1..] && b == [b[0]] + b[1..];
    } else if a != "" {
      LessTrichotomy(a[1..], a[1..]);
    }
  }

  lemma {:induction false} LessTransitive(a: string, b: string, c: string)
    requires Less(a, b) && Less(b, c)
    ensures Less(a, c)
  {
    if a != "" && a[0] == b[0] && b[0] == c[0] { LessTransitive(a[1..], b[1..], c[1..]); }
  }

  ghost predicate Ascending(names: seq<string>) {
    forall i, j :: 0 <= i < j < |names| ==> Less(names[i], names[j])
  }

  function Elements(names: seq<string>): set<string> {
    set i | 0 <= i < |names| :: names[i]
  }

  function InsertName(sorted: seq<string>, n: string): seq<string> {
    if sorted == [] then [n]
    else if sorted[0] == n then sorted
    else if Less(n, sorted[0]) then [n] + sorted
    else [sorted[0]] + InsertName(sorted[1..], n)
  }

  /** The distinct names, sorted. */
  function SortDistinct(names: seq<string>): seq<string> {
    if names == [] then [] else InsertName(SortDistinct(names[..|names| - 1]), names[|names| - 1])
  }

  lemma ElementsCons(s: seq<string>)
    requires s != []
    ensures Elements(s) == {s[0]} + Elements(s[1..])
  {
    forall x | x in Elements(s) ensures x in {s[0]} + Elements(s[1..]) {
      var i :| 0 <= i < |s| && s[i] == x;
      assert i > 0 ==> s[1..][i - 1] == x;
    }
    forall x | x in Elements(s[1..]) ensures x in Elements(s) {
      var i :| 0 <= i < |s[1..]| && s[1..][i] == x;
      assert s[i + 1] == x;
    }
  }

  lemma {:induction false} InsertNameInserts(sorted: seq<string>, n: string)
    requires Ascending(sorted)
    ensures Ascending(InsertName(sorted, n)) && Elements(InsertName(sorted, n)) == Elements(sorted) + {n}
  {
    var r := InsertName(sorted, n);
    if sorted == [] {
      assert Elements([n]) == {n};
    } else if sorted[0] == n {
      assert sorted[0] in Elements(sorted);
    } else if Less(n, sorted[0]) {
      forall j | 0 <= j < |sorted| ensures Less(n, sorted[j]) {
        if j > 0 { LessTransitive(n, sorted[0], sorted[j]); }
      }
      ElementsCons(r);
      assert r[1..] == sorted;
    } else {
      InsertNameInserts(sorted[1..], n);
      var rest := InsertName(sorted[1..], n);
      ElementsCons(sorted);
      ElementsCons(r);
      assert r[1..] == rest;
      LessTrichotomy(n, sorted[0]);
      forall j | 0 <= j < |rest| ensures Less(sorted[0], rest[j]) {
        assert rest[j] in Elements(rest);
        if rest[j] != n {
          assert rest[j] in Elements(sorted[1..]);
        }
      }
    }
  }

  lemma ElementsSnoc(s: seq<string>)
    requires s != []
    ensures Elements(s) == Elements(s[..|s| - 1]) + {s[|s| - 1]}
  {
    var init, last := s[..|s| - 1], s[|s| - 1];
    forall x | x in Elements(s) ensures x in Elements(init) + {last} {
      var i :| 0 <= i < |s| && s[i] == x;
      assert i < |init| ==> init[i] == x;
    }
    forall x | x in Elements(init) ensures x in Elements(s) {
      var i :| 0 <= i < |init| && init[i] == x;
      assert s[i] == x;
    }
    assert s[|s| - 1] in Elements(s);
  }

  lemma {:induction false} SortDistinctIsCanonical(names: seq<string>)
    ensures Ascending(SortDistinct(names)) && Elements(SortDistinct(names)) == Elements(names)
  {
    if names != [] {
      SortDistinctIsCanonical(names[..|names| - 1]);
      InsertNameInserts(SortDistinct(names[..|names| - 1]), names[|names| - 1]);
      ElementsSnoc(names);
    }
  }

  lemma HeadIsLeast(a: seq<string>, x: string)
    requires Ascending(a) && x in Elements(a)
    ensures x == a[0] || Less(a[0], x)
  {
    var i :| 0 <= i < |a| && a[i] == x;
  }

  /** A strictly ascending list is determined by its elements. */
  lemma {:induction false} AscendingIsUnique(a: seq<string>, b: seq<string>)
    requires Ascending(a) && Ascending(b) && Elements(a) == Elements(b)
    ensures a == b
  {
    EmptyElements(a);
    EmptyElements(b);
    if a != [] {
      assert a[0] in Elements(a);
      assert b[0] in Elements(b);
      HeadIsLeast(a, b[0]);
      HeadIsLeast(b, a[0]);
      LessTrichotomy(a[0], b[0]);
      TailElements(a);
      TailElements(b);
      AscendingIsUnique(a[1..], b[1..]);
      assert a == [a[0]] + a[1..] && b == [b[0]] + b[1..];
    }
  }

  lemma TailElements(a: seq<string>)
    requires Ascending(a) && a != []
    ensures Ascending(a[1..]) && Elements(a[1..]) == Elements(a) - {a[0]}
  {
    ElementsCons(a);
    if a[0] in Elements(a[1..]) {
      var i :| 0 <= i < |a[1..]| && a[1..][i] == a[0];
      assert Less(a[0], a[i + 1]);
      LessTrichotomy(a[0], a[0]);
      assert false;
    }
  }

  // ---- The tag of a review set ----

  function Join(names: seq<string>): string {
    if names == [] then "" else if |names| == 1 then names[0] else names[0] + "\n" + Join(names[1..])
  }

  /** None is the general reviewer alone. */
  function ReviewSetTag(profiles: seq<string>): Option<Digest> {
    if profiles == [] then None else Some(Sha256(Join(SortDistinct(profiles))))
  }

  ghost predicate OneLine(names: seq<string>) {
    forall n :: n in names ==> '\n' !in n
  }

  function LineLength(s: string): nat {
    if s == "" || s[0] == '\n' then 0 else 1 + LineLength(s[1..])
  }

  lemma {:induction false} LineThenBreak(a: string, s: string)
    requires '\n' !in a && (s == "" || s[0] == '\n')
    ensures LineLength(a + s) == |a|
  {
    if a == "" {
      assert a + s == s;
    } else {
      assert (a + s)[1..] == a[1..] + s && (a + s)[0] == a[0];
      LineThenBreak(a[1..], s);
    }
  }

  lemma SplitAt(a: string, b: string, s: string, t: string)
    requires a + s == b + t && |a| == |b|
    ensures a == b && s == t
  {
    assert a == (a + s)[..|a|] && b == (b + t)[..|b|];
    assert s == (a + s)[|a|..] && t == (b + t)[|b|..];
  }

  function JoinRest(names: seq<string>): string {
    if names == [] then "" else "\n" + Join(names)
  }

  lemma JoinIsHeadAndRest(a: seq<string>)
    requires a != [] && OneLine(a)
    ensures Join(a) == a[0] + JoinRest(a[1..]) && LineLength(Join(a)) == |a[0]| && OneLine(a[1..])
  {
    assert a[0] in a;
    assert Join(a) == a[0] + JoinRest(a[1..]);
    LineThenBreak(a[0], JoinRest(a[1..]));
  }

  lemma {:induction false} JoinInjective(a: seq<string>, b: seq<string>)
    requires a != [] && b != [] && OneLine(a) && OneLine(b) && Join(a) == Join(b)
    ensures a == b
    decreases |a|
  {
    var restA, restB := a[1..], b[1..];
    JoinIsHeadAndRest(a);
    JoinIsHeadAndRest(b);
    SplitAt(a[0], b[0], JoinRest(restA), JoinRest(restB));
    if restA != [] && restB != [] {
      SplitAt("\n", "\n", Join(restA), Join(restB));
      JoinInjective(restA, restB);
    }
    assert a == [a[0]] + restA && b == [b[0]] + restB;
  }

  /** For names of one line, two review sets share a namespace exactly when they are the same set,
      whatever the order and the repetitions. */
  lemma TagNamesTheSet(a: seq<string>, b: seq<string>)
    requires OneLine(a) && OneLine(b)
    ensures ReviewSetTag(a) == ReviewSetTag(b) <==> Elements(a) == Elements(b)
  {
    SortDistinctIsCanonical(a);
    SortDistinctIsCanonical(b);
    var x, y := SortDistinct(a), SortDistinct(b);
    if Elements(a) == Elements(b) {
      AscendingIsUnique(x, y);
      if a == [] || b == [] { EmptyElements(a); EmptyElements(b); }
    } else if a != [] && b != [] {
      SortedOneLine(a);
      SortedOneLine(b);
      if Join(x) == Join(y) {
        JoinInjective(x, y);
        assert false;
      }
    }
  }

  lemma EmptyElements(a: seq<string>)
    ensures a == [] <==> Elements(a) == {}
  {
    if a != [] { assert a[0] in Elements(a); }
  }

  lemma SortedOneLine(a: seq<string>)
    requires OneLine(a) && a != []
    ensures OneLine(SortDistinct(a)) && SortDistinct(a) != []
  {
    SortDistinctIsCanonical(a);
    EmptyElements(a);
    EmptyElements(SortDistinct(a));
    forall n | n in SortDistinct(a) ensures '\n' !in n {
      assert n in Elements(SortDistinct(a));
    }
  }

  /** A name with a line break would collide with a longer set. */
  lemma LineBreakCollides()
    ensures ReviewSetTag(["a\nb"]) == ReviewSetTag(["a", "b"])
  {
    var one, two := ["a\nb"], ["a", "b"];
    assert one[..0] == [] && two[..1] == ["a"] && ["a"][..0] == [];
    assert SortDistinct(one) == one;
    assert SortDistinct(["a"]) == ["a"];
    assert SortDistinct(two) == InsertName(["a"], "b");
    assert Less("a", "b") && !Less("b", "a");
    assert ["a"][1..] == [];
    assert InsertName(["a"], "b") == ["a"] + InsertName([], "b") == ["a", "b"];
    assert two[1..] == ["b"];
    assert Join(two) == "a" + "\n" + "b" == "a\nb";
  }

  // ---- Artifact names ----

  const HASH_CHARS := 24
  const SCOPE_CHARS := 16

  /** `scope` is `set-` and twelve hex characters, or nothing. */
  function ScopePrefix(scope: Option<string>): string {
    if scope.None? then "" else scope.value + "-"
  }

  function VerdictText(pass: bool): string {
    if pass then "pass" else "fail"
  }

  /** `hash` is the diff hash already cut to 24 characters. */
  function CacheArtifactName(pr: string, hash: string, scope: Option<string>, pass: bool): string {
    "fleet-review-" + (ScopePrefix(scope) + (VerdictText(pass) + ("-pr" + (pr + ("-" + hash)))))
  }

  ghost predicate ValidScope(scope: Option<string>) {
    scope.Some? ==> |scope.value| == SCOPE_CHARS && scope.value[0] == 's'
  }

  /** The name is the whole key: no verdict can be found under another PR, diff, set or outcome,
      whatever characters a PR identifier has. */
  lemma ArtifactNameIsInjective(pr1: string, hash1: string, scope1: Option<string>, pass1: bool,
                                pr2: string, hash2: string, scope2: Option<string>, pass2: bool)
    requires |hash1| == HASH_CHARS && |hash2| == HASH_CHARS && ValidScope(scope1) && ValidScope(scope2)
    requires CacheArtifactName(pr1, hash1, scope1, pass1) == CacheArtifactName(pr2, hash2, scope2, pass2)
    ensures pr1 == pr2 && hash1 == hash2 && scope1 == scope2 && pass1 == pass2
  {
    var end1, end2 := "-pr" + (pr1 + ("-" + hash1)), "-pr" + (pr2 + ("-" + hash2));
    var tail1, tail2 := VerdictText(pass1) + end1, VerdictText(pass2) + end2;
    SplitAt("fleet-review-", "fleet-review-", ScopePrefix(scope1) + tail1, ScopePrefix(scope2) + tail2);
    assert tail1[0] == (if pass1 then 'p' else 'f') && tail2[0] == (if pass2 then 'p' else 'f');
    assert (ScopePrefix(scope1) + tail1)[0] == if scope1.Some? then 's' else tail1[0];
    assert (ScopePrefix(scope2) + tail2)[0] == if scope2.Some? then 's' else tail2[0];
    SplitAt(ScopePrefix(scope1), ScopePrefix(scope2), tail1, tail2);
    if scope1.Some? { SplitAt(scope1.value, scope2.value, "-", "-"); }
    SplitAt(VerdictText(pass1), VerdictText(pass2), end1, end2);
    assert VerdictText(pass1)[0] == VerdictText(pass2)[0];
    SplitAt("-pr", "-pr", pr1 + ("-" + hash1), pr2 + ("-" + hash2));
    assert |pr1| == |pr2|;
    SplitAt(pr1, pr2, "-" + hash1, "-" + hash2);
    SplitAt("-", "-", hash1, hash2);
  }
}
