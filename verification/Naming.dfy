/** Column and table names derived from field and entity names. */
module Naming {

  predicate IsUpper(c: char) {
    'A' <= c <= 'Z'
  }

  predicate IsLower(c: char) {
    'a' <= c <= 'z'
  }

  predicate IsDigit(c: char) {
    '0' <= c <= '9'
  }

  function Lower(c: char): char {
    if IsUpper(c) then c - 'A' + 'a' else c
  }

  function Upper(c: char): char {
    if IsLower(c) then c - 'a' + 'A' else c
  }

  /** A capital starts a new word after a lower-case letter or a digit, or as the
      last of a run of capitals before a lower-case letter. */
  predicate StartsWord(s: string, i: nat)
    requires i < |s|
  {
    && 0 < i
    && (IsLower(s[i - 1]) || IsDigit(s[i - 1])
        || (IsUpper(s[i - 1]) && i + 1 < |s| && IsLower(s[i + 1])))
  }

  function Piece(s: string, i: nat): string
    requires i < |s|
  {
    if IsUpper(s[i]) && StartsWord(s, i) then ['_', Lower(s[i])] else [Lower(s[i])]
  }

  /** What a name contributes to its column from character `i` on. */
  function SnakeFrom(s: string, i: nat): string
    requires i <= |s|
    decreases |s| - i
  {
    if i == |s| then "" else Piece(s, i) + SnakeFrom(s, i + 1)
  }

  function SnakeCase(s: string): string {
    SnakeFrom(s, 0)
  }

  lemma OneMoreCharacter(s: string, i: nat, out: string)
    requires i < |s|
    ensures out + SnakeFrom(s, i) == out + Piece(s, i) + SnakeFrom(s, i + 1)
  {
  }

  lemma NothingLeft(s: string)
    ensures SnakeFrom(s, |s|) == ""
  {
  }

  method ToSnakeCase(s: string) returns (out: string)
    ensures out == SnakeCase(s)
  {
    hide IsLower, IsDigit, IsUpper, SnakeFrom;
    out := "";
    assert "" + SnakeFrom(s, 0) == SnakeCase(s);
    for i := 0 to |s|
      invariant out + SnakeFrom(s, i) == SnakeCase(s)
    {
      var c := s[i];
      ghost var before := out;
      OneMoreCharacter(s, i, out);
      if IsUpper(c) {
        var prevLower := i > 0 && (IsLower(s[i - 1]) || IsDigit(s[i - 1]));
        var nextLower := i + 1 < |s| && IsLower(s[i + 1]);
        var prevUpper := i > 0 && IsUpper(s[i - 1]);
        if i > 0 && (prevLower || (prevUpper && nextLower)) {
          out := out + ['_'];
        }
        out := out + [Lower(c)];
      } else {
        out := out + [c];
      }
      assert out == before + Piece(s, i);
    }
    assert out + SnakeFrom(s, |s|) == out by { NothingLeft(s); }
  }

  predicate EndsWith(s: string, suffix: string) {
    |suffix| <= |s| && s[|s| - |suffix|..] == suffix
  }

  function Plural(base: string): string {
    if EndsWith(base, "s") || EndsWith(base, "ch") || EndsWith(base, "sh") || EndsWith(base, "x") then base + "es"
    else if EndsWith(base, "y") && !EndsWith(base, "ay") && !EndsWith(base, "ey") && !EndsWith(base, "oy")
        && !EndsWith(base, "uy")
    then base[..|base| - 1] + "ies"
    else base + "s"
  }

  function TableName(entity: string): string {
    Plural(SnakeCase(entity))
  }

  // ---- When names stay apart ----

  /** A name in camel case: no underscores, and every capital starts a word. */
  ghost predicate IsCamel(s: string) {
    forall i :: 0 <= i < |s| ==> s[i] != '_' && (IsUpper(s[i]) ==> 0 < i && (IsLower(s[i - 1]) || IsDigit(s[i - 1])))
  }

  /** The name in camel case that a column stands for. */
  function CamelCase(t: string): string {
    if |t| == 0 then ""
    else if t[0] == '_' && 1 < |t| then [Upper(t[1])] + CamelCase(t[2..])
    else [t[0]] + CamelCase(t[1..])
  }

  lemma {:induction false} CamelReadsBackFrom(s: string, i: nat)
    requires IsCamel(s) && i <= |s|
    ensures CamelCase(SnakeFrom(s, i)) == s[i..]
    decreases |s| - i
  {
    if i < |s| {
      CamelReadsBackFrom(s, i + 1);
      var c, piece, rest := s[i], Piece(s, i), SnakeFrom(s, i + 1);
      var t := piece + rest;
      assert t[|piece|..] == rest && s[i..] == [c] + s[i + 1..];
      if IsUpper(c) {
        assert StartsWord(s, i);
        assert piece[0] == '_' && piece[1] == Lower(c);
        assert t[0] == '_' && t[1] == Lower(c) && Upper(Lower(c)) == c;
      } else {
        assert t[0] == c != '_';
      }
    }
  }

  /** Fields named in camel case never share a column: the name can be read back. */
  lemma CamelNamesStayApart(s: string, t: string)
    requires IsCamel(s) && IsCamel(t) && s != t
    ensures SnakeCase(s) != SnakeCase(t)
  {
    CamelReadsBackFrom(s, 0);
    CamelReadsBackFrom(t, 0);
  }

  /** A name without capitals is its own column. */
  lemma {:induction false} LowerNamesStay(s: string, i: nat)
    requires i <= |s| && forall j :: 0 <= j < |s| ==> !IsUpper(s[j])
    ensures SnakeFrom(s, i) == s[i..]
    decreases |s| - i
  {
    if i < |s| {
      LowerNamesStay(s, i + 1);
      assert s[i..] == [s[i]] + s[i + 1..];
    }
  }

  /** The column names the documentation gives: a run of capitals is one word. */
  lemma DocumentedColumns()
    ensures SnakeCase("assetId") == "asset_id" && SnakeCase("ID") == "id" && SnakeCase("HTTPServer") == "http_server"
  {
    hide SnakeFrom;
    AssetId();
    Id();
    HttpServer();
  }

  lemma AssetId()
    ensures SnakeFrom("assetId", 0) == "asset_id"
  {
    var s := "assetId";
    assert SnakeFrom(s, 7) == "";
    assert SnakeFrom(s, 6) == "d";
    assert SnakeFrom(s, 5) == "_id";
    assert SnakeFrom(s, 4) == "t_id";
    assert SnakeFrom(s, 3) == "et_id";
    assert SnakeFrom(s, 2) == "set_id";
    assert SnakeFrom(s, 1) == "sset_id";
  }

  lemma Id()
    ensures SnakeFrom("ID", 0) == "id"
  {
    assert SnakeFrom("ID", 1) == "d";
  }

  lemma Server()
    ensures SnakeFrom("HTTPServer", 4) == "_server"
  {
    var s := "HTTPServer";
    assert SnakeFrom(s, 10) == "";
    assert SnakeFrom(s, 9) == "r";
    assert SnakeFrom(s, 8) == "er";
    assert SnakeFrom(s, 7) == "ver";
    assert SnakeFrom(s, 6) == "rver";
    assert SnakeFrom(s, 5) == "erver";
  }

  lemma PServer()
    ensures SnakeFrom("HTTPServer", 3) == "p_server"
  {
    Server();
  }

  lemma TpServer()
    ensures SnakeFrom("HTTPServer", 2) == "tp_server"
  {
    PServer();
  }

  lemma HttpServer()
    ensures SnakeFrom("HTTPServer", 0) == "http_server"
  {
    TpServer();
    assert SnakeFrom("HTTPServer", 1) == "ttp_server";
  }

  lemma EndsIn(s: string, suffix: string)
    ensures |suffix| == 1 ==> (EndsWith(s, suffix) <==> 0 < |s| && s[|s| - 1] == suffix[0])
    ensures |suffix| == 2 ==>
              (EndsWith(s, suffix) <==> 1 < |s| && s[|s| - 2] == suffix[0] && s[|s| - 1] == suffix[1])
  {
  }

  /** The plural goes by the last letter and the one before it: asset_classes,
      identities, days, transfers. */
  lemma PluralByLastLetters(base: string)
    requires 1 < |base|
    ensures var last, before := base[|base| - 1], base[|base| - 2];
            if last == 'y' && before != 'a' && before != 'e' && before != 'o' && before != 'u'
            then Plural(base) == base[..|base| - 1] + "ies"
            else if last == 's' || last == 'x' || (last == 'h' && (before == 'c' || before == 's'))
            then Plural(base) == base + "es"
            else Plural(base) == base + "s"
  {
    hide EndsWith;
    EndsIn(base, "s");
    EndsIn(base, "ch");
    EndsIn(base, "sh");
    EndsIn(base, "x");
    EndsIn(base, "y");
    EndsIn(base, "ay");
    EndsIn(base, "ey");
    EndsIn(base, "oy");
    EndsIn(base, "uy");
  }
}
