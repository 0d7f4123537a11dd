/** Path patterns: how a lane's owned paths and the secret deny list are matched against files. */
module Fragments {

  // ---- Globs ----

  /** `*` matches within one path segment; everything else is literal; the match is anchored. */
  predicate GlobMatches(pattern: string, s: string)
    decreases |pattern| + |s|
  {
    if pattern == "" then s == ""
    else if pattern[0] == '*' then
      GlobMatches(pattern[1..], s) || (s != "" && s[0] != '/' && GlobMatches(pattern, s[1..]))
    else s != "" && s[0] == pattern[0] && GlobMatches(pattern[1..], s[1..])
  }

  function Stars(pattern: string): nat {
    if pattern == "" then 0 else (if pattern[0] == '*' then 1 else 0) + Stars(pattern[1..])
  }

  /** The pattern with its stars replaced by the fillers, in order. */
  function Fill(pattern: string, fillers: seq<string>): string
    requires |fillers| == Stars(pattern)
  {
    if pattern == "" then ""
    else if pattern[0] == '*' then fillers[0] + Fill(pattern[1..], fillers[1..])
    else [pattern[0]] + Fill(pattern[1..], fillers)
  }

  ghost predicate SlashFree(fillers: seq<string>) {
    forall k :: 0 <= k < |fillers| ==> '/' !in fillers[k]
  }

  ghost predicate FilledBy(pattern: string, fillers: seq<string>, s: string) {
    |fillers| == Stars(pattern) && SlashFree(fillers) && Fill(pattern, fillers) == s
  }

  lemma {:induction false} MatchHasFillers(pattern: string, s: string) returns (fillers: seq<string>)
    requires GlobMatches(pattern, s)
    ensures FilledBy(pattern, fillers, s)
    decreases |pattern| + |s|
  {
    if pattern == "" {
      fillers := [];
    } else if pattern[0] != '*' {
      fillers := MatchHasFillers(pattern[1..], s[1..]);
      assert s == [s[0]] + s[1..];
    } else if GlobMatches(pattern[1..], s) {
      var rest := MatchHasFillers(pattern[1..], s);
      fillers := [""] + rest;
      assert fillers[1..] == rest;
    } else {
      var longer := MatchHasFillers(pattern, s[1..]);
      fillers := [[s[0]] + longer[0]] + longer[1..];
      assert fillers[1..] == longer[1..];
      assert s == [s[0]] + s[1..];
      assert Fill(pattern, fillers) == [s[0]] + longer[0] + Fill(pattern[1..], longer[1..]);
    }
  }

  lemma {:induction false} FilledMatches(pattern: string, fillers: seq<string>)
    requires |fillers| == Stars(pattern) && SlashFree(fillers)
    ensures GlobMatches(pattern, Fill(pattern, fillers))
    decreases |pattern|, if fillers == [] then 0 else |fillers[0]|
  {
    if pattern == "" {
    } else if pattern[0] != '*' {
      FilledMatches(pattern[1..], fillers);
      assert Fill(pattern, fillers)[1..] == Fill(pattern[1..], fillers);
    } else if fillers[0] == "" {
      FilledMatches(pattern[1..], fillers[1..]);
      assert Fill(pattern, fillers) == Fill(pattern[1..], fillers[1..]);
    } else {
      var shorter := [fillers[0][1..]] + fillers[1..];
      assert shorter[1..] == fillers[1..];
      FilledMatches(pattern, shorter);
      var s := Fill(pattern, fillers);
      assert s[0] == fillers[0][0] && s[0] in fillers[0];
      assert s[1..] == Fill(pattern, shorter);
    }
  }

  /** A glob matches exactly the strings obtained by replacing each `*` with something slash-free. */
  lemma GlobMeansFillers(pattern: string, s: string)
    ensures GlobMatches(pattern, s) <==> exists fillers :: FilledBy(pattern, fillers, s)
  {
    if GlobMatches(pattern, s) {
      var fillers := MatchHasFillers(pattern, s);
    } else {
      forall fillers | FilledBy(pattern, fillers, s) ensures false {
        FilledMatches(pattern, fillers);
      }
    }
  }

  // ---- Paths ----

  function Basename(file: string): string {
    if file == "" then ""
    else if file[|file| - 1] == '/' then ""
    else Basename(file[..|file| - 1]) + [file[|file| - 1]]
  }

  predicate MatchesRootedPath(file: string, pattern: string) {
    if pattern != "" && pattern[|pattern| - 1] == '/' then pattern <= file
    else if '*' !in pattern then pattern <= file
    else GlobMatches(pattern, file)
  }

  /** A leading slash anchors; a pattern with no slash is about the basename; any other is about
      the whole path. */
  predicate MatchesPath(file: string, pattern: string) {
    if pattern != "" && pattern[0] == '/' then pattern != "/" && MatchesRootedPath(file, pattern[1..])
    else if '/' !in pattern then
      (if '*' in pattern then GlobMatches(pattern, Basename(file)) else pattern <= Basename(file))
    else MatchesRootedPath(file, pattern)
  }

  const SECRET_TEMPLATE_SUFFIXES := [".example", ".sample", ".template"]
  const TEMPLATED_SECRET_PATTERNS := [".env", "keystore.properties"]

  predicate EndsWith(s: string, suffix: string) {
    |s| >= |suffix| && s[|s| - |suffix|..] == suffix
  }

  predicate IsSecretTemplatePath(file: string) {
    var base := Basename(file);
    exists suffix :: suffix in SECRET_TEMPLATE_SUFFIXES && |base| > |suffix| && EndsWith(base, suffix)
  }

  predicate MatchesSecretPath(file: string, pattern: string) {
    MatchesPath(file, pattern) && (pattern in TEMPLATED_SECRET_PATTERNS ==> !IsSecretTemplatePath(file))
  }

  lemma {:induction false} BasenameIsLastSegment(file: string)
    ensures '/' !in Basename(file) && EndsWith(file, Basename(file))
    ensures |Basename(file)| < |file| ==> file[|file| - |Basename(file)| - 1] == '/'
  {
    if file != "" && file[|file| - 1] != '/' {
      var init := file[..|file| - 1];
      BasenameIsLastSegment(init);
      assert init[|init| - |Basename(init)|..] + [file[|file| - 1]] == file[|file| - |Basename(file)|..];
    }
  }

  lemma {:induction false} BasenameOfNested(dir: string, name: string)
    requires '/' !in name && (dir == "" || dir[|dir| - 1] == '/')
    ensures Basename(dir + name) == name
    decreases |name|
  {
    if name == "" {
      assert dir + name == dir;
    } else {
      var init, last := name[..|name| - 1], name[|name| - 1];
      assert last in name;
      assert (dir + name)[..|dir + name| - 1] == dir + init;
      assert (dir + name)[|dir + name| - 1] == last;
      BasenameOfNested(dir, init);
      assert init + [last] == name;
    }
  }

  /** A pattern without a slash sees a file the same way at any depth; only an anchored pattern
      can mean the top level alone. */
  lemma DepthDoesNotMatter(dir: string, name: string, pattern: string)
    requires '/' !in pattern && '/' !in name && (dir == "" || dir[|dir| - 1] == '/')
    ensures MatchesPath(dir + name, pattern) <==> MatchesPath(name, pattern)
    ensures MatchesSecretPath(dir + name, pattern) <==> MatchesSecretPath(name, pattern)
  {
    BasenameOfNested(dir, name);
    BasenameOfNested("", name);
    assert "" + name == name;
  }

  ghost predicate StartsWith(s: string, prefix: string) {
    exists rest :: s == prefix + rest
  }

  /** The glob's stars can be filled, without slashes, to make the text. */
  ghost predicate Fills(pattern: string, s: string) {
    exists fillers :: FilledBy(pattern, fillers, s)
  }

  lemma GlobFills(pattern: string, s: string)
    ensures GlobMatches(pattern, s) <==> Fills(pattern, s)
  {
    GlobMeansFillers(pattern, s);
  }

  lemma PrefixMeans(s: string, prefix: string)
    ensures prefix <= s <==> StartsWith(s, prefix)
  {
    if prefix <= s { assert s == prefix + s[|prefix|..]; }
  }

  /** What a pattern about whole paths says: everything under a directory, everything that starts like
      a literal, or everything a glob can be filled to. */
  ghost predicate PathMeans(file: string, pattern: string) {
    if pattern != "" && pattern[|pattern| - 1] == '/' then StartsWith(file, pattern)
    else if '*' in pattern then Fills(pattern, file)
    else StartsWith(file, pattern)
  }

  /** What every pattern means: a leading slash anchors it at the root, and alone matches nothing;
      without any slash it is about the last segment, a glob filled or a literal begun; any other is
      about the whole path, a trailing slash being a directory with everything beneath it. */
  lemma PatternMeans(file: string, pattern: string)
    ensures MatchesPath(file, pattern) <==>
              if pattern != "" && pattern[0] == '/' then |pattern| > 1 && PathMeans(file, pattern[1..])
              else if '/' in pattern then PathMeans(file, pattern)
              else if '*' in pattern then Fills(pattern, Basename(file))
              else StartsWith(Basename(file), pattern)
  {
    if pattern != "" && pattern[0] == '/' {
      if |pattern| == 1 { assert pattern == "/"; }
      RootedMeans(file, pattern[1..]);
    } else if '/' in pattern {
      RootedMeans(file, pattern);
    } else if '*' in pattern {
      GlobFills(pattern, Basename(file));
    } else {
      PrefixMeans(Basename(file), pattern);
    }
  }

  lemma RootedMeans(file: string, pattern: string)
    ensures MatchesRootedPath(file, pattern) <==> PathMeans(file, pattern)
  {
    PrefixMeans(file, pattern);
    GlobFills(pattern, file);
  }

  /** In particular a directory covers exactly what is beneath it, at any depth. */
  lemma DirectoryCoversSubtree(dir: string, file: string)
    requires dir != "" && dir[0] != '/' && dir[|dir| - 1] == '/'
    ensures MatchesPath(file, dir) <==> StartsWith(file, dir)
    ensures MatchesPath(file, "/" + dir) <==> StartsWith(file, dir)
  {
    assert dir[|dir| - 1] in dir;
    PatternMeans(file, dir);
    PatternMeans(file, "/" + dir);
    assert ("/" + dir)[1..] == dir;
  }

  /** A committed template: some name followed by one of the three suffixes, nothing else. */
  lemma SecretTemplateMeans(file: string)
    ensures IsSecretTemplatePath(file) <==>
              exists name, suffix :: suffix in [".example", ".sample", ".template"] && name != "" && Basename(file) == name + suffix
  {
    var base := Basename(file);
    if suffix :| suffix in SECRET_TEMPLATE_SUFFIXES && |base| > |suffix| && EndsWith(base, suffix) {
      assert base == base[..|base| - |suffix|] + suffix;
    }
    if name, suffix :| suffix in [".example", ".sample", ".template"] && name != "" && base == name + suffix {
      assert base[|base| - |suffix|..] == suffix;
    }
  }
}
