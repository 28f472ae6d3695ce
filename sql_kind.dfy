/** The read/write test both executors apply to a command:
    `sql_command.strip().upper().startswith("SELECT")`. It is a prefix
    heuristic, not a parser: only a command whose first word begins with the
    letters SELECT, in any case, counts as a read. */
module SqlKind {
  import opened Ascii

  const READ_KEYWORD := "SELECT"

  /** `s.lstrip()`: drop the leading whitespace. */
  function TrimStart(s: string): string {
    if s != [] && IsSpace(s[0]) then TrimStart(s[1..]) else s
  }

  /** `lstrip` removes a run of whitespace from the front and leaves a string
      that is empty or starts with a non-space character. */
  lemma {:induction false} TrimStartSpec(s: string)
    ensures |TrimStart(s)| <= |s|
    ensures TrimStart(s) == s[|s| - |TrimStart(s)|..]
    ensures AllSpace(s[..|s| - |TrimStart(s)|])
    ensures TrimStart(s) == [] || !IsSpace(TrimStart(s)[0])
  {
    if s != [] && IsSpace(s[0]) {
      TrimStartSpec(s[1..]);
      var k := |s| - |TrimStart(s)|;
      assert s[..k] == [s[0]] + s[1..][..k - 1];
      assert s[1..][k - 1..] == s[k..];
    }
  }

  /** `s.rstrip()`: drop the trailing whitespace. */
  function TrimEnd(s: string): (r: string)
    ensures |r| <= |s| && r == s[..|r|]
    ensures forall i :: |r| <= i < |s| ==> IsSpace(s[i])
    ensures r == [] || !IsSpace(r[|r| - 1])
  {
    if s != [] && IsSpace(s[|s| - 1]) then TrimEnd(s[..|s| - 1]) else s
  }

  /** `s.strip()`. */
  function Strip(s: string): string {
    TrimEnd(TrimStart(s))
  }

  /** `s.upper()`. */
  function Upper(s: string): string {
    seq(|s|, i requires 0 <= i < |s| => ToUpper(s[i]))
  }

  predicate StartsWith(s: string, prefix: string) {
    |prefix| <= |s| && s[..|prefix|] == prefix
  }

  /** The executors' test for a read command. */
  predicate IsRead(sql: string)
    requires IsAscii(sql)
  {
    StartsWith(Upper(Strip(sql)), READ_KEYWORD)
  }

  /** `word` spells `keyword` with the case of letters ignored. */
  predicate SpellsIgnoringCase(word: string, keyword: string) {
    |word| == |keyword| && forall j :: 0 <= j < |word| ==> ToUpper(word[j]) == keyword[j]
  }

  /** A command is a read iff, after some whitespace, its next six characters
      spell SELECT in any case. Trailing whitespace never matters. */
  lemma IsReadIff(sql: string)
    requires IsAscii(sql)
    ensures IsRead(sql) <==> exists i :: KeywordAt(sql, i)
  {
    if IsRead(sql) {
      ReadHasKeyword(sql);
    }
    if exists i :: KeywordAt(sql, i) {
      var i :| KeywordAt(sql, i);
      KeywordIsRead(sql, i);
    }
  }

  /** After `i` characters of whitespace, `sql` continues with SELECT in any case. */
  predicate KeywordAt(sql: string, i: int) {
    0 <= i <= |sql| - |READ_KEYWORD| && AllSpace(sql[..i]) &&
    SpellsIgnoringCase(sql[i..i + |READ_KEYWORD|], READ_KEYWORD)
  }

  lemma ReadHasKeyword(sql: string)
    requires IsAscii(sql) && IsRead(sql)
    ensures |TrimStart(sql)| <= |sql| && KeywordAt(sql, |sql| - |TrimStart(sql)|)
  {
    TrimStartSpec(sql);
    var t := TrimStart(sql);
    var k := |sql| - |t|;
    var r := TrimEnd(t);
    var u := Upper(r);
    assert u[..6] == READ_KEYWORD;
    forall j | 0 <= j < 6 ensures ToUpper(sql[k..k + 6][j]) == READ_KEYWORD[j] {
      assert sql[k..k + 6][j] == r[j];
      assert u[..6][j] == u[j];
    }
  }

  lemma KeywordIsRead(sql: string, i: int)
    requires IsAscii(sql) && KeywordAt(sql, i)
    ensures IsRead(sql)
  {
    var w := sql[i..i + 6];
    KeywordIsNotSpace(w);
    assert sql[i] == w[0];
    TrimStartAt(sql, i);
    var t := TrimStart(sql);
    assert t[5] == w[5];
    TrimEndKeeps(t, 5);
    var u := Upper(TrimEnd(t));
    forall j | 0 <= j < 6 ensures u[j] == READ_KEYWORD[j] {
      assert t[j] == w[j];
    }
    assert u[..6] == READ_KEYWORD;
  }

  predicate AllSpace(s: string) {
    forall i :: 0 <= i < |s| ==> IsSpace(s[i])
  }

  /** No character that folds to a letter of SELECT is whitespace. */
  lemma KeywordIsNotSpace(word: string)
    requires SpellsIgnoringCase(word, READ_KEYWORD)
    ensures forall j :: 0 <= j < |word| ==> !IsSpace(word[j])
  {
    forall j | 0 <= j < |word| ensures !IsSpace(word[j]) {
      assert 'A' <= READ_KEYWORD[j] <= 'Z';
    }
  }

  /** Whitespace up to the first non-space character at `i` is what `lstrip` drops. */
  lemma {:induction false} TrimStartAt(s: string, i: nat)
    requires i < |s| && AllSpace(s[..i]) && !IsSpace(s[i])
    ensures TrimStart(s) == s[i..]
  {
    if i > 0 {
      assert s[1..][..i - 1] == s[..i][1..];
      assert IsSpace(s[..i][0]);
      TrimStartAt(s[1..], i - 1);
      assert s[1..][i - 1..] == s[i..];
    }
  }

  /** `rstrip` keeps every character up to the last non-space one. */
  lemma TrimEndKeeps(s: string, j: nat)
    requires j < |s| && !IsSpace(s[j])
    ensures j < |TrimEnd(s)|
  {
  }

  /** A command whose first non-space character starts something other than
      SELECT is not a read. */
  lemma NotKeywordIsNotRead(sql: string, i: int)
    requires IsAscii(sql) && 0 <= i < |sql| && AllSpace(sql[..i]) && !IsSpace(sql[i])
    requires !KeywordAt(sql, i)
    ensures !IsRead(sql)
  {
    TrimStartAt(sql, i);
    if IsRead(sql) {
      ReadHasKeyword(sql);
    }
  }

  /** A lower-case read with leading whitespace is a read. */
  lemma LowerCaseSelectIsRead()
    ensures IsRead("  select * from t")
  {
    var a := "  select * from t";
    assert a[..2] == "  " && a[2..8] == "select";
    KeywordIsRead(a, 2);
  }

  /** Mixed case and whitespace on both sides do not matter. */
  lemma MixedCaseSelectIsRead()
    ensures IsRead("\n\tSeLeCt 1\n")
  {
    var b := "\n\tSeLeCt 1\n";
    assert b[..2] == "\n\t" && b[2..8] == "SeLeCt";
    KeywordIsRead(b, 2);
  }

  /** An UPDATE command is a write. */
  lemma UpdateIsWrite()
    ensures !IsRead("UPDATE t SET x=1")
  {
    var a := "UPDATE t SET x=1";
    assert a[0] == 'U' && a[..0] == "" && a[0..6][0] == a[0];
    NotKeywordIsNotRead(a, 0);
  }

  /** A DELETE command is a write. */
  lemma DeleteIsWrite()
    ensures !IsRead("DELETE FROM t")
  {
    var b := "DELETE FROM t";
    assert b[0] == 'D' && b[..0] == "" && b[0..6][0] == b[0];
    NotKeywordIsNotRead(b, 0);
  }

  /** A query that opens with a common table expression is taken for a write. */
  lemma WithQueryIsWrite()
    ensures !IsRead("WITH q AS (SELECT 1) SELECT * FROM q")
  {
    var c := "WITH q AS (SELECT 1) SELECT * FROM q";
    assert c[0] == 'W' && c[..0] == "" && c[0..6][0] == c[0];
    NotKeywordIsNotRead(c, 0);
  }

  /** The empty command and a truncated keyword are not reads. */
  lemma ShortCommandsAreWrites()
    ensures !IsRead("")
    ensures !IsRead("SELEC")
  {
    assert "SELEC"[..0] == "";
    NotKeywordIsNotRead("SELEC", 0);
  }
}
