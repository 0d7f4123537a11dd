/** How much review a diff earns: the high-impact test and the tiers. `highImpact` is the curated
    list of high-impact paths; what is proved holds for any such list. */
module Impact {
  import opened Options
  import opened Fragments
  import opened ReviewGate
  import Scope

  const SECRET_PATH_PATTERNS := [
    ".env", ".dev.vars", "keystore.properties", "*.pem", "id_rsa", "id_ed25519", "*.jks", "*.keystore",
    "*.p8", "*.p12", "*.pfx", "*.key", "*.mobileprovision", ".npmrc", ".pgpass", "authorized_keys"]

  const LARGE_DIFF_FILES := 40
  const LARGE_DIFF_LINES := 1500

  predicate Contains(f: string, part: string) {
    part <= f || (f != "" && Contains(f[1..], part))
  }

  predicate HighImpactHit(f: string, highImpact: seq<string>) {
    exists p :: p in highImpact && (p <= f || Contains(f, "/" + p))
  }

  predicate SecretHit(f: string) {
    exists p :: p in SECRET_PATH_PATTERNS && MatchesPath(f, p)
  }

  datatype Reason = HighImpactPath(file: string) | SecretPattern(file: string) | TooManyFiles | TooManyLines

  /** High impact exactly when there is a reason; each file gives at most one of each kind. */
  method ClassifyImpact(changedFiles: seq<string>, addedLines: nat, highImpact: seq<string>) returns (high: bool, reasons: seq<Reason>)
    ensures forall f :: HighImpactPath(f) in reasons <==> f in changedFiles && HighImpactHit(f, highImpact)
    ensures forall f :: SecretPattern(f) in reasons <==> f in changedFiles && SecretHit(f)
    ensures TooManyFiles in reasons <==> |changedFiles| > LARGE_DIFF_FILES
    ensures TooManyLines in reasons <==> addedLines > LARGE_DIFF_LINES
    ensures high <==> (exists f :: f in changedFiles && (HighImpactHit(f, highImpact) || SecretHit(f)))
                      || |changedFiles| > LARGE_DIFF_FILES || addedLines > LARGE_DIFF_LINES
  {
    reasons := [];
    var i := 0;
    while i < |changedFiles|
      invariant 0 <= i <= |changedFiles|
      invariant forall f :: HighImpactPath(f) in reasons <==> f in changedFiles[..i] && HighImpactHit(f, highImpact)
      invariant forall f :: SecretPattern(f) in reasons <==> f in changedFiles[..i] && SecretHit(f)
      invariant TooManyFiles !in reasons && TooManyLines !in reasons
    {
      var f := changedFiles[i];
      assert changedFiles[..i + 1] == changedFiles[..i] + [f];
      if HighImpactHit(f, highImpact) {
        reasons := reasons + [HighImpactPath(f)];
      }
      if SecretHit(f) {
        reasons := reasons + [SecretPattern(f)];
      }
      i := i + 1;
    }
    assert changedFiles[..i] == changedFiles;
    if |changedFiles| > LARGE_DIFF_FILES {
      reasons := reasons + [TooManyFiles];
    }
    if addedLines > LARGE_DIFF_LINES {
      reasons := reasons + [TooManyLines];
    }
    high := |reasons| > 0;
    if high {
      assert reasons[0] in reasons;
      match reasons[0]
      case HighImpactPath(f) =>
      case SecretPattern(f) =>
      case _ =>
    }
    if f :| f in changedFiles && (HighImpactHit(f, highImpact) || SecretHit(f)) {
      assert HighImpactPath(f) in reasons || SecretPattern(f) in reasons;
    }
  }

  // ---- Tiers ----

  const TIER0_DOC_DIR := "docs/"
  const TIER0_MD_EXEMPT_PREFIX := ".claude/"
  const TIER1_PATHS := [".editorconfig", ".gitattributes"]
  const AGENT_INSTRUCTION_PATHS := [".claude/", "docs/superpowers/specs/"]
  const AGENT_INSTRUCTION_BASENAMES := {"CLAUDE.md", "AGENTS.md", "GEMINI.md"}

  predicate IsTier0Path(f: string) {
    !(TIER0_MD_EXEMPT_PREFIX <= f) && (TIER0_DOC_DIR <= f || EndsWith(f, ".md"))
  }

  /** A directory entry covers what is under it, a file entry only itself at the root. */
  predicate Tier1Hit(f: string) {
    exists p :: p in TIER1_PATHS && (if EndsWith(p, "/") then p <= f else f == p)
  }

  predicate InstructsAgents(f: string) {
    (exists p :: p in AGENT_INSTRUCTION_PATHS && p <= f) || Basename(f) in AGENT_INSTRUCTION_BASENAMES
  }

  function TierForFile(f: string, highImpact: seq<string>): nat {
    if InstructsAgents(f) then 2
    else if Tier1Hit(f) then 1
    else if HighImpactHit(f, highImpact) then 2
    else if SecretHit(f) then 2
    else if IsTier0Path(f) then 0
    else 2
  }

  function TierOf(changedFiles: seq<string>, highImpact: seq<string>): nat {
    if changedFiles == [] then 0
    else
      var before, last := TierOf(changedFiles[..|changedFiles| - 1], highImpact), TierForFile(changedFiles[|changedFiles| - 1], highImpact);
      if last > before then last else before
  }

  method TierFor(changedFiles: seq<string>, highImpact: seq<string>) returns (tier: nat)
    ensures tier == TierOf(changedFiles, highImpact)
  {
    tier := 0;
    var i := 0;
    while i < |changedFiles|
      invariant 0 <= i <= |changedFiles|
      invariant tier == TierOf(changedFiles[..i], highImpact)
    {
      assert changedFiles[..i + 1][..i] == changedFiles[..i];
      var t := TierForFile(changedFiles[i], highImpact);
      if t > tier {
        tier := t;
      }
      i := i + 1;
    }
    assert changedFiles[..i] == changedFiles;
  }

  /** The tier is the highest any file has, and nothing else. */
  lemma {:induction false} TierIsMaximum(changedFiles: seq<string>, highImpact: seq<string>)
    ensures forall f :: f in changedFiles ==> TierForFile(f, highImpact) <= TierOf(changedFiles, highImpact)
    ensures changedFiles == [] ==> TierOf(changedFiles, highImpact) == 0
    ensures changedFiles != [] ==> exists f :: f in changedFiles && TierForFile(f, highImpact) == TierOf(changedFiles, highImpact)
  {
    if changedFiles != [] {
      var init, last := changedFiles[..|changedFiles| - 1], changedFiles[|changedFiles| - 1];
      TierIsMaximum(init, highImpact);
      assert changedFiles == init + [last];
      if init == [] || TierForFile(last, highImpact) > TierOf(init, highImpact) {
        assert last in changedFiles && TierForFile(last, highImpact) == TierOf(changedFiles, highImpact);
      }
    }
  }

  /** Adding files, anywhere, never lowers the tier. */
  lemma AddingFilesNeverLowersTier(few: seq<string>, more: seq<string>, highImpact: seq<string>)
    requires forall f :: f in few ==> f in more
    ensures TierOf(few, highImpact) <= TierOf(more, highImpact)
  {
    TierIsMaximum(few, highImpact);
    TierIsMaximum(more, highImpact);
  }

  // ---- The gates contain one another ----

  lemma {:induction false} LiteralGlobIsEquality(pattern: string, s: string)
    requires GlobMatches(pattern, s) && '*' !in pattern
    ensures s == pattern
  {
    if pattern != "" {
      assert pattern[0] in pattern;
      LiteralGlobIsEquality(pattern[1..], s[1..]);
      assert pattern == [pattern[0]] + pattern[1..] && s == [s[0]] + s[1..];
    }
  }

  lemma {:induction false} StarThenSuffix(suffix: string, s: string)
    requires GlobMatches("*" + suffix, s) && '*' !in suffix
    ensures EndsWith(s, suffix)
  {
    assert ("*" + suffix)[1..] == suffix;
    if GlobMatches(suffix, s) {
      LiteralGlobIsEquality(suffix, s);
    } else {
      StarThenSuffix(suffix, s[1..]);
      assert s[|s| - |suffix|..] == s[1..][|s[1..]| - |suffix|..];
    }
  }

  /** Every glob on the secret list is a star and an extension. */
  ghost predicate ExtensionGlob(p: string) {
    |p| in {4, 5, 10, 17} && p[0] == '*' && p[1] == '.' && '*' !in p[1..] && '/' !in p
  }

  /** Every literal on it is no prefix of a Tier 1 file. */
  ghost predicate OtherLiteral(p: string) {
    |p| >= 3 && '*' !in p && '/' !in p && (p[0] != '.' || p[1] !in {'e', 'g'} || p[2] == 'n')
  }

  lemma ShortGlobs()
    ensures ExtensionGlob("*.pem") && ExtensionGlob("*.jks") && ExtensionGlob("*.p8") && ExtensionGlob("*.p12")
    ensures ExtensionGlob("*.pfx") && ExtensionGlob("*.key")
  {
  }

  lemma LongGlobs()
    ensures ExtensionGlob("*.keystore") && ExtensionGlob("*.mobileprovision")
  {
  }

  lemma DottedLiterals()
    ensures OtherLiteral(".env") && OtherLiteral(".dev.vars") && OtherLiteral(".npmrc") && OtherLiteral(".pgpass")
  {
  }

  lemma NamedLiterals()
    ensures OtherLiteral("keystore.properties") && OtherLiteral("id_rsa") && OtherLiteral("id_ed25519") && OtherLiteral("authorized_keys")
  {
  }

  lemma SecretPatternShapes(p: string)
    requires p in SECRET_PATH_PATTERNS
    ensures ExtensionGlob(p) || OtherLiteral(p)
  {
    ShortGlobs();
    LongGlobs();
    DottedLiterals();
    NamedLiterals();
  }

  lemma NotAnExtension(f: string, suffix: string)
    requires |f| in {13, 14} && forall i :: 0 < i < |f| ==> f[i] != '.'
    requires |suffix| in {3, 4, 9, 16} && suffix[0] == '.'
    ensures !EndsWith(f, suffix)
  {
    if |suffix| < |f| {
      var tail := f[|f| - |suffix|..];
      assert tail[0] != '.';
    }
  }

  lemma Tier1FileMisses(f: string, p: string)
    requires f == ".editorconfig" || f == ".gitattributes"
    requires Basename(f) == f && (ExtensionGlob(p) || OtherLiteral(p))
    ensures !MatchesPath(f, p)
  {
    assert |f| in {13, 14} && forall i :: 0 < i < |f| ==> f[i] != '.';
    assert f[0] == '.' && f[1] in {'e', 'g'} && f[2] != 'n';
    if ExtensionGlob(p) {
      assert p == "*" + p[1..] && p[0] in p;
      NotAnExtension(f, p[1..]);
      if GlobMatches(p, f) {
        StarThenSuffix(p[1..], f);
        assert false;
      }
    }
  }

  /** The two Tier 1 files are not secrets. */
  lemma Tier1FilesAreNotSecrets(f: string)
    requires f == ".editorconfig" || f == ".gitattributes"
    ensures !SecretHit(f)
  {
    BasenameOfNested("", f);
    assert "" + f == f;
    forall p | p in SECRET_PATH_PATTERNS ensures !MatchesPath(f, p) {
      SecretPatternShapes(p);
      Tier1FileMisses(f, p);
    }
  }

  lemma {:induction false} SuffixFillsStar(suffix: string, s: string)
    requires '*' !in suffix && '/' !in s && EndsWith(s, suffix)
    ensures GlobMatches("*" + suffix, s)
    decreases |s|
  {
    assert ("*" + suffix)[1..] == suffix;
    if |s| == |suffix| {
      assert s == suffix;
      LiteralMatchesItself(suffix);
    } else {
      assert s[0] in s && s[1..][|s[1..]| - |suffix|..] == s[|s| - |suffix|..];
      SuffixFillsStar(suffix, s[1..]);
    }
  }

  lemma {:induction false} LiteralMatchesItself(s: string)
    requires '*' !in s
    ensures GlobMatches(s, s)
  {
    if s != "" {
      assert s[0] in s;
      LiteralMatchesItself(s[1..]);
    }
  }

  /** What an entry of the secret list says of a file's last segment: how it ends, for a star and an
      extension, or how it begins. */
  ghost predicate Names(p: string, base: string) {
    if p != "" && p[0] == '*' then EndsWith(base, p[1..]) else p <= base
  }

  lemma EntryMeans(f: string, p: string)
    requires p in SECRET_PATH_PATTERNS
    ensures MatchesPath(f, p) <==> Names(p, Basename(f))
  {
    SecretPatternShapes(p);
    BasenameIsLastSegment(f);
    if ExtensionGlob(p) {
      assert p == "*" + p[1..] && p[0] in p;
      if GlobMatches(p, Basename(f)) {
        StarThenSuffix(p[1..], Basename(f));
      } else if EndsWith(Basename(f), p[1..]) {
        SuffixFillsStar(p[1..], Basename(f));
      }
    } else {
      assert p[0] in p;
    }
  }

  /** A file is a secret, at any depth, exactly when its last segment begins like one of the list's
      names or ends in one of its extensions. */
  lemma SecretHitMeans(f: string)
    ensures SecretHit(f) <==> exists p :: p in SECRET_PATH_PATTERNS && Names(p, Basename(f))
  {
    forall p | p in SECRET_PATH_PATTERNS ensures MatchesPath(f, p) <==> Names(p, Basename(f)) {
      EntryMeans(f, p);
    }
  }

  /** The write gate forbids exactly these, but for templates of the two kinds of file that have them:
      a name followed by `.example`, `.sample` or `.template`. */
  lemma ForbiddenMeans(f: string)
    ensures Scope.Forbidden(f, SECRET_PATH_PATTERNS) <==>
              exists p :: p in SECRET_PATH_PATTERNS && Names(p, Basename(f)) &&
                !((p == ".env" || p == "keystore.properties") && IsSecretTemplatePath(f))
  {
    forall p | p in SECRET_PATH_PATTERNS
      ensures MatchesSecretPath(f, p) <==> Names(p, Basename(f)) && !((p == ".env" || p == "keystore.properties") && IsSecretTemplatePath(f))
    {
      EntryMeans(f, p);
      assert p in TEMPLATED_SECRET_PATTERNS <==> p == ".env" || p == "keystore.properties";
    }
  }

  lemma {:induction false} ContainedIsSplit(f: string, part: string) returns (before: string, after: string)
    requires Contains(f, part)
    ensures f == before + part + after
  {
    if part <= f {
      before, after := "", f[|part|..];
    } else {
      before, after := ContainedIsSplit(f[1..], part);
      before := [f[0]] + before;
    }
  }

  lemma {:induction false} SplitIsContained(before: string, part: string, after: string)
    ensures Contains(before + part + after, part)
  {
    var f := before + part + after;
    if before == "" {
      assert f == part + after;
    } else {
      assert f[1..] == before[1..] + part + after;
      SplitIsContained(before[1..], part, after);
    }
  }

  ghost predicate Within(f: string, part: string) {
    exists before, after :: f == before + part + after
  }

  lemma ContainsMeans(f: string, part: string)
    ensures Contains(f, part) <==> Within(f, part)
  {
    if Contains(f, part) {
      var before, after := ContainedIsSplit(f, part);
    }
    if before, after :| f == before + part + after {
      SplitIsContained(before, part, after);
    }
  }

  /** A high-impact entry meets a file that begins with it, or has it right after some slash. */
  lemma HighImpactMeans(f: string, highImpact: seq<string>)
    ensures HighImpactHit(f, highImpact) <==>
              exists p :: p in highImpact && (StartsWith(f, p) || Within(f, "/" + p))
  {
    forall p | p in highImpact
      ensures p <= f || Contains(f, "/" + p) <==> StartsWith(f, p) || Within(f, "/" + p)
    {
      PrefixMeans(f, p);
      ContainsMeans(f, "/" + p);
    }
  }

  /** Whatever the write gate can forbid is high-impact at the merge gate and Tier 2 at the review
      gate, for every file name and every list of high-impact paths. */
  lemma NeverWriteIsHighImpactAndTier2(f: string, highImpact: seq<string>)
    requires Scope.Forbidden(f, SECRET_PATH_PATTERNS)
    ensures SecretHit(f) && TierForFile(f, highImpact) == 2
  {
    RootFilesAreTier1(f);
    if Tier1Hit(f) { Tier1FilesAreNotSecrets(f); }
  }

  /** So a diff holding such a file is never waved through as low-tier, whoever asks and whatever
      else it holds. */
  lemma SecretsAreNeverLowTier(changed: seq<string>, highImpact: seq<string>, f: string, reviews: ReviewSet,
                               cached: Option<bool>, author: Option<string>, requested: bool, republishOnly: bool)
    requires f in changed && Scope.Forbidden(f, SECRET_PATH_PATTERNS)
    ensures DecideReviewGate(reviews, cached, author, TierOf(changed, highImpact), requested, republishOnly) != LowTier
  {
    NeverWriteIsHighImpactAndTier2(f, highImpact);
    TierIsMaximum(changed, highImpact);
  }

  /** Instructions an agent obeys. */
  ghost predicate Instructs(f: string) {
    StartsWith(f, ".claude/") || StartsWith(f, "docs/superpowers/specs/") || Basename(f) in {"CLAUDE.md", "AGENTS.md", "GEMINI.md"}
  }

  /** Documentation or Markdown that instructs no agent. */
  ghost predicate Prose(f: string) {
    (StartsWith(f, "docs/") || EndsWith(f, ".md")) && !Instructs(f)
  }

  lemma InstructionPathHit(f: string)
    ensures (exists p :: p in AGENT_INSTRUCTION_PATHS && p <= f) <==> StartsWith(f, ".claude/") || StartsWith(f, "docs/superpowers/specs/")
  {
    PrefixMeans(f, ".claude/");
    PrefixMeans(f, "docs/superpowers/specs/");
    var claude, specs := AGENT_INSTRUCTION_PATHS[0], AGENT_INSTRUCTION_PATHS[1];
    assert claude == ".claude/" && specs == "docs/superpowers/specs/";
    assert claude in AGENT_INSTRUCTION_PATHS && specs in AGENT_INSTRUCTION_PATHS;
    assert StartsWith(f, ".claude/") ==> claude <= f;
    assert StartsWith(f, "docs/superpowers/specs/") ==> specs <= f;
    if p :| p in AGENT_INSTRUCTION_PATHS && p <= f {
      assert p == ".claude/" || p == "docs/superpowers/specs/";
    }
  }

  lemma InstructsMeans(f: string)
    ensures InstructsAgents(f) <==> Instructs(f)
    ensures IsTier0Path(f) && !InstructsAgents(f) <==> Prose(f)
  {
    InstructionPathHit(f);
    PrefixMeans(f, ".claude/");
    PrefixMeans(f, "docs/");
  }

  /** The tier of one file: 1 for the two root files; 0 for prose that meets no high-impact path and is
      no secret; 2 for everything else. */
  lemma FileTierMeans(f: string, highImpact: seq<string>)
    ensures TierForFile(f, highImpact) ==
              if f == ".editorconfig" || f == ".gitattributes" then 1
              else if Prose(f) && !HighImpactHit(f, highImpact) && !SecretHit(f) then 0
              else 2
  {
    RootFilesAreTier1(f);
    InstructsMeans(f);
  }

  /** A diff below Tier 2 holds only the two root files and prose: documentation or Markdown that
      instructs no agent, meets no high-impact path and no secret pattern. */
  lemma BelowTier2IsHarmless(changed: seq<string>, highImpact: seq<string>)
    ensures TierOf(changed, highImpact) < 2 <==>
              forall f :: f in changed ==>
                || f == ".editorconfig" || f == ".gitattributes"
                || (Prose(f) && !HighImpactHit(f, highImpact) && !SecretHit(f))
  {
    TierIsMaximum(changed, highImpact);
    forall f | f in changed
      ensures TierForFile(f, highImpact) < 2 <==>
                f == ".editorconfig" || f == ".gitattributes" || (Prose(f) && !HighImpactHit(f, highImpact) && !SecretHit(f))
    {
      FileTierMeans(f, highImpact);
    }
  }

  lemma RootFilesAreTier1(f: string)
    ensures Tier1Hit(f) <==> f == ".editorconfig" || f == ".gitattributes"
    ensures Tier1Hit(f) ==> !InstructsAgents(f)
  {
    Tier1EntriesAreFiles();
    if f == ".editorconfig" || f == ".gitattributes" { RootFilesInstructNobody(f); }
  }

  lemma Tier1EntriesAreFiles()
    ensures !EndsWith(".editorconfig", "/") && !EndsWith(".gitattributes", "/")
    ensures ".editorconfig" in TIER1_PATHS && ".gitattributes" in TIER1_PATHS
    ensures forall p :: p in TIER1_PATHS ==> p == ".editorconfig" || p == ".gitattributes"
  {
    assert ".editorconfig"[12..][0] == 'g' && ".gitattributes"[13..][0] == 's' && "/"[0] == '/';
    assert TIER1_PATHS[0] == ".editorconfig" && TIER1_PATHS[1] == ".gitattributes";
  }

  lemma RootFilesInstructNobody(f: string)
    requires f == ".editorconfig" || f == ".gitattributes"
    ensures !InstructsAgents(f)
  {
    assert f[0] == '.' && f[1] in {'e', 'g'} && '/' !in f;
    BasenameOfNested("", f);
    assert "" + f == f;
    NotAnInstructionName(f);
  }

  lemma NotAnInstructionName(f: string)
    requires |f| > 2 && f[0] == '.' && f[1] in {'e', 'g'}
    ensures f !in AGENT_INSTRUCTION_BASENAMES && forall p :: p in AGENT_INSTRUCTION_PATHS ==> !(p <= f)
  {
    assert ".claude/"[1] == 'c' && "docs/superpowers/specs/"[0] == 'd';
    assert "CLAUDE.md"[0] == 'C' && "AGENTS.md"[0] == 'A' && "GEMINI.md"[0] == 'G';
  }
}
