/** The name of a worktree's own database. */
module DatabaseNames {
  const SHARED_DB := "llamenos"
  const WORKTREE_PREFIX := "llamenos_wt_"
  const TEMPLATE_PREFIX := "llamenos_tpl_"
  const BUILD_PREFIX := "llamenos_tplbuild_"
  const PG_IDENTIFIER_MAX_BYTES := 63
  const PATH_HASH_LENGTH := 10

  predicate IsProtected(name: string) {
    || name == SHARED_DB || name == "postgres" || name == "template0" || name == "template1"
    || TEMPLATE_PREFIX <= name || BUILD_PREFIX <= name
  }

  predicate Alphanumeric(c: char) {
    'a' <= c <= 'z' || '0' <= c <= '9'
  }

  predicate IdentifierChar(c: char) {
    Alphanumeric(c) || c == '_'
  }

  ghost predicate Identifier(s: string) {
    forall i :: 0 <= i < |s| ==> IdentifierChar(s[i])
  }

  function LowerChar(c: char): char {
    if 'A' <= c <= 'Z' then (c as int + 32) as char else c
  }

  /** Lower-cased, every run of anything outside [a-z0-9] collapsed to one underscore. */
  function Collapse(s: string): string {
    if s == "" then ""
    else
      var before, c := Collapse(s[..|s| - 1]), LowerChar(s[|s| - 1]);
      if Alphanumeric(c) then before + [c]
      else if before != "" && before[|before| - 1] == '_' then before
      else before + "_"
  }

  function TrimLeft(s: string): string {
    if s != "" && s[0] == '_' then TrimLeft(s[1..]) else s
  }

  function TrimRight(s: string): string {
    if s != "" && s[|s| - 1] == '_' then TrimRight(s[..|s| - 1]) else s
  }

  function Sanitise(segment: string): string {
    TrimRight(TrimLeft(Collapse(segment)))
  }

  const PRODUCT := "llamenos_"
  const ROOM := PG_IDENTIFIER_MAX_BYTES - |WORKTREE_PREFIX| - 1 - PATH_HASH_LENGTH

  function OrWorktree(dir: string): string {
    if dir == "" then "worktree" else dir
  }

  /** `base` is the last segment of the path and `hash` the hex digest of the whole path, cut to
      ten characters. */
  function DeriveDatabaseName(base: string, hash: string): string {
    var clean := Sanitise(base);
    var short := if PRODUCT <= clean && |clean| > |PRODUCT| then clean[|PRODUCT|..] else clean;
    var dir := OrWorktree(short);
    WORKTREE_PREFIX + OrWorktree(TrimRight(if |dir| > ROOM then dir[..ROOM] else dir)) + "_" + hash
  }

  // ---- Sanitising ----

  /** No character outside [a-z0-9_] and no two underscores in a row. */
  ghost predicate Squeezed(s: string) {
    Identifier(s) && forall i :: 0 <= i < |s| - 1 ==> !(s[i] == '_' && s[i + 1] == '_')
  }

  lemma {:induction false} CollapseSqueezes(s: string)
    ensures Squeezed(Collapse(s))
  {
    if s != "" { CollapseSqueezes(s[..|s| - 1]); }
  }

  lemma {:induction false} CollapseKeepsSqueezed(s: string)
    requires Squeezed(s)
    ensures Collapse(s) == s
  {
    if s != "" {
      var init, n := s[..|s| - 1], |s| - 1;
      CollapseKeepsSqueezed(init);
      assert init != "" ==> init[|init| - 1] == s[n - 1];
      assert s == init + [s[n]] && IdentifierChar(s[n]);
    }
  }

  lemma {:induction false} TrimLeftKeeps(s: string)
    requires Squeezed(s)
    ensures Squeezed(TrimLeft(s)) && (TrimLeft(s) != "" ==> TrimLeft(s)[0] != '_')
  {
    if s != "" && s[0] == '_' {
      assert Squeezed(s[1..]) by {
        forall i | 0 <= i < |s[1..]| - 1 ensures !(s[1..][i] == '_' && s[1..][i + 1] == '_') {
          assert s[1..][i] == s[i + 1] && s[1..][i + 1] == s[i + 2];
        }
      }
      TrimLeftKeeps(s[1..]);
    }
  }

  lemma {:induction false} TrimRightKeeps(s: string)
    requires Squeezed(s)
    ensures Squeezed(TrimRight(s)) && (TrimRight(s) != "" ==> TrimRight(s)[|TrimRight(s)| - 1] != '_')
    ensures TrimRight(s) <= s
    ensures s != "" && s[0] != '_' ==> TrimRight(s) != ""
  {
    if s != "" && s[|s| - 1] == '_' { TrimRightKeeps(s[..|s| - 1]); }
  }

  ghost predicate Clean(s: string) {
    Squeezed(s) && (s != "" ==> s[0] != '_' && s[|s| - 1] != '_')
  }

  /** What is left is made of [a-z0-9] and single underscores between them, and sanitising again
      changes nothing. */
  lemma SanitiseCleans(segment: string)
    ensures Clean(Sanitise(segment)) && Sanitise(Sanitise(segment)) == Sanitise(segment)
  {
    var collapsed := Collapse(segment);
    CollapseSqueezes(segment);
    TrimLeftKeeps(collapsed);
    TrimRightKeeps(TrimLeft(collapsed));
    CollapseKeepsSqueezed(Sanitise(segment));
  }

  /** The letters and digits of a text, lower-cased, in order. */
  ghost function Kept(s: string): string {
    if s == "" then ""
    else Kept(s[..|s| - 1]) + if Alphanumeric(LowerChar(s[|s| - 1])) then [LowerChar(s[|s| - 1])] else ""
  }

  lemma KeptSnoc(s: string, c: char)
    ensures Kept(s + [c]) == Kept(s) + if Alphanumeric(LowerChar(c)) then [LowerChar(c)] else ""
  {
    assert (s + [c])[..|s|] == s;
  }

  lemma {:induction false} KeptConcat(a: string, b: string)
    ensures Kept(a + b) == Kept(a) + Kept(b)
    decreases |b|
  {
    if b == "" {
      assert a + b == a;
    } else {
      assert a + b == (a + b[..|b| - 1]) + [b[|b| - 1]] && b == b[..|b| - 1] + [b[|b| - 1]];
      KeptSnoc(a + b[..|b| - 1], b[|b| - 1]);
      KeptSnoc(b[..|b| - 1], b[|b| - 1]);
      KeptConcat(a, b[..|b| - 1]);
    }
  }

  lemma {:induction false} CollapseKeepsText(s: string)
    ensures Kept(Collapse(s)) == Kept(s)
  {
    if s != "" {
      var before, c := Collapse(s[..|s| - 1]), LowerChar(s[|s| - 1]);
      CollapseKeepsText(s[..|s| - 1]);
      KeptSnoc(before, c);
      KeptSnoc(before, '_');
    }
  }

  lemma {:induction false} TrimLeftKeepsText(s: string)
    ensures Kept(TrimLeft(s)) == Kept(s)
  {
    if s != "" && s[0] == '_' {
      assert s == "_" + s[1..];
      KeptConcat("_", s[1..]);
      KeptSnoc("", '_');
      assert "" + "_" == "_";
      TrimLeftKeepsText(s[1..]);
    }
  }

  lemma {:induction false} TrimRightKeepsText(s: string)
    ensures Kept(TrimRight(s)) == Kept(s)
  {
    if s != "" && s[|s| - 1] == '_' { TrimRightKeepsText(s[..|s| - 1]); }
  }

  /** Sanitising loses no letter and no digit, and keeps their order; a clean name stays as it is. */
  lemma SanitiseKeepsText(segment: string)
    ensures Kept(Sanitise(segment)) == Kept(segment)
    ensures Clean(segment) ==> Sanitise(segment) == segment
  {
    CollapseKeepsText(segment);
    TrimLeftKeepsText(Collapse(segment));
    TrimRightKeepsText(TrimLeft(Collapse(segment)));
    if Clean(segment) { CollapseKeepsSqueezed(segment); }
  }

  // ---- The derived name ----

  ghost predicate HexHash(hash: string) {
    |hash| == PATH_HASH_LENGTH && Identifier(hash)
  }

  lemma DropKeepsSqueezed(s: string, n: nat)
    requires Squeezed(s) && n <= |s|
    ensures Squeezed(s[n..])
  {
    forall i | 0 <= i < |s[n..]| ensures s[n..][i] == s[n + i] {
    }
  }

  lemma TakeKeepsSqueezed(s: string, n: nat)
    requires Squeezed(s) && n <= |s|
    ensures Squeezed(s[..n])
  {
  }

  lemma CutPart(dir: string)
    requires Squeezed(dir)
    ensures var part := OrWorktree(TrimRight(if |dir| > ROOM then dir[..ROOM] else dir));
            Identifier(part) && 1 <= |part| <= ROOM
  {
    if |dir| > ROOM {
      TakeKeepsSqueezed(dir, ROOM);
      TrimRightKeeps(dir[..ROOM]);
    } else {
      TrimRightKeeps(dir);
    }
  }

  lemma DirPart(base: string)
    ensures var clean := Sanitise(base);
            var dir := OrWorktree(if PRODUCT <= clean && |clean| > |PRODUCT| then clean[|PRODUCT|..] else clean);
            var part := OrWorktree(TrimRight(if |dir| > ROOM then dir[..ROOM] else dir));
            Identifier(part) && 1 <= |part| <= ROOM
  {
    SanitiseCleans(base);
    var clean := Sanitise(base);
    var rest := if PRODUCT <= clean && |clean| > |PRODUCT| then clean[|PRODUCT|..] else clean;
    if PRODUCT <= clean { DropKeepsSqueezed(clean, |PRODUCT|); }
    assert Squeezed("worktree");
    CutPart(OrWorktree(rest));
  }

  /** Every derived name fits PostgreSQL's identifier limit, needs no quoting, is one of the
      tool's own and never a protected one. */
  lemma DerivedNameIsSafe(base: string, hash: string)
    requires HexHash(hash)
    ensures var name := DeriveDatabaseName(base, hash);
            && |name| <= PG_IDENTIFIER_MAX_BYTES && Identifier(name)
            && WORKTREE_PREFIX <= name && !IsProtected(name)
  {
    DirPart(base);
    var name := DeriveDatabaseName(base, hash);
    assert Identifier(WORKTREE_PREFIX);
    assert name[9] == 'w' && TEMPLATE_PREFIX[9] == 't' && BUILD_PREFIX[9] == 't';
    assert name[0] == 'l' && |name| > |SHARED_DB|;
    assert "postgres"[0] == 'p' && "template0"[0] == 't' && "template1"[0] == 't';
  }

  /** A clean directory name that fits appears whole between the tool's prefix and the hash. */
  lemma DerivedNameShowsDirectory(base: string, hash: string)
    requires Clean(base) && base != "" && !(PRODUCT <= base) && |base| <= ROOM
    ensures DeriveDatabaseName(base, hash) == "llamenos_wt_" + base + "_" + hash
  {
    SanitiseKeepsText(base);
    assert TrimRight(base) == base;
  }

  /** The product's own prefix, which the tool's prefix repeats, is left out. */
  lemma ProductPrefixGoes(base: string, hash: string)
    requires Clean(PRODUCT + base) && base != "" && |base| <= ROOM
    ensures DeriveDatabaseName(PRODUCT + base, hash) == "llamenos_wt_" + base + "_" + hash
  {
    var dir := PRODUCT + base;
    SanitiseKeepsText(dir);
    assert dir[|dir| - 1] == base[|base| - 1] && dir[|PRODUCT|..] == base;
    assert TrimRight(base) == base;
  }

  /** A directory with no letter and no digit in its name is called `worktree`. */
  lemma NamelessDirectory(base: string, hash: string)
    requires Kept(base) == ""
    ensures DeriveDatabaseName(base, hash) == "llamenos_wt_" + "worktree" + "_" + hash
  {
    SanitiseKeepsText(base);
    SanitiseCleans(base);
    NothingKept(Sanitise(base));
    assert "worktree"[7] == 'e' && |"worktree"| == 8;
    assert TrimRight("worktree") == "worktree";
  }

  lemma NothingKept(s: string)
    requires Clean(s)
    ensures Kept(s) == "" ==> s == ""
  {
    if s != "" {
      var c := s[|s| - 1];
      assert IdentifierChar(c) && c != '_' && LowerChar(c) == c;
    }
  }

  /** Sanitising and cutting may collide; the path hash decides. */
  lemma NameDeterminesHash(base1: string, hash1: string, base2: string, hash2: string)
    requires HexHash(hash1) && HexHash(hash2)
    requires DeriveDatabaseName(base1, hash1) == DeriveDatabaseName(base2, hash2)
    ensures hash1 == hash2
  {
    var name1, name2 := DeriveDatabaseName(base1, hash1), DeriveDatabaseName(base2, hash2);
    assert hash1 == name1[|name1| - PATH_HASH_LENGTH..];
    assert hash2 == name2[|name2| - PATH_HASH_LENGTH..];
  }
}
