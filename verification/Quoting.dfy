/** Quoting for SQL and for the libpq password file, against the readers that undo it. */
module Quoting {
  import opened Common

  // --- SQL identifiers and literals ----------------------------------------------------------------------------

  /** Every `q` doubled. */
  function Doubled(v: string, q: char): (r: string) {
    if v == "" then ""
    else if v[0] == q then [q, q] + Doubled(v[1..], q)
    else [v[0]] + Doubled(v[1..], q)
  }

  function Quote(v: string, q: char): (r: string) {
    [q] + Doubled(v, q) + [q]
  }

  function QuoteIdent(v: string): (r: string) {
    Quote(v, '"')
  }

  function QuoteLiteral(v: string): (r: string) {
    Quote(v, '\'')
  }

  /** Reads the inside of a quoted token: a doubled quote is one quote, a single one ends the token. */
  function ReadQuoted(s: string, q: char): (r: Option<(string, string)>)
    decreases |s|
  {
    if s == "" then None
    else if s[0] != q then
      (match ReadQuoted(s[1..], q)
       case None => None
       case Some((v, rest)) => Some(([s[0]] + v, rest)))
    else if |s| >= 2 && s[1] == q then
      (match ReadQuoted(s[2..], q)
       case None => None
       case Some((v, rest)) => Some(([q] + v, rest)))
    else Some(("", s[1..]))
  }

  /** Lexes one quoted token from the front of `s`: its value and the text after it. */
  function Lex(s: string, q: char): (r: Option<(string, string)>) {
    if s != "" && s[0] == q then ReadQuoted(s[1..], q) else None
  }

  /** The value read back is `v`, followed by whatever the closing quote and the text after it read as. */
  lemma {:induction false} ReadDoubled(v: string, q: char, after: string)
    ensures ReadQuoted(Doubled(v, q) + after, q) ==
            (match ReadQuoted(after, q)
             case None => None
             case Some((w, rest)) => Some((v + w, rest)))
    decreases |v|
  {
    var s := Doubled(v, q) + after;
    if v == "" {
      assert s == after;
      match ReadQuoted(after, q)
      case None =>
      case Some((w, rest)) => assert "" + w == w;
    } else {
      ReadDoubled(v[1..], q, after);
      if v[0] == q {
        assert s[2..] == Doubled(v[1..], q) + after;
      } else {
        assert s[1..] == Doubled(v[1..], q) + after;
      }
      match ReadQuoted(after, q)
      case None =>
      case Some((w, rest)) => assert [v[0]] + (v[1..] + w) == v + w;
    }
  }

  /** A quoted value followed by `rest` lexes to exactly that value and `rest` unless `rest` starts with the quote. */
  lemma QuoteLexesIff(v: string, q: char, rest: string)
    ensures Lex(Quote(v, q) + rest, q) == Some((v, rest)) <==> rest == "" || rest[0] != q
  {
    var after := [q] + rest;
    assert (Quote(v, q) + rest)[1..] == Doubled(v, q) + after;
    ReadDoubled(v, q, after);
    assert after[1..] == rest;
    if rest == "" || rest[0] != q {
      assert v + "" == v;
    } else if ReadQuoted(after, q).Some? {
      assert |ReadQuoted(after, q).value.0| >= 1;
    }
  }

  lemma IdentAndLiteralRoundTrip(v: string, rest: string)
    ensures rest == "" || rest[0] != '"' ==> Lex(QuoteIdent(v) + rest, '"') == Some((v, rest))
    ensures rest == "" || rest[0] != '\'' ==> Lex(QuoteLiteral(v) + rest, '\'') == Some((v, rest))
  {
    QuoteLexesIff(v, '"', rest);
    QuoteLexesIff(v, '\'', rest);
  }

  // --- The libpq password file ------------------------------------------------------------------------------------

  predicate Storable(password: string) {
    forall i :: 0 <= i < |password| ==> password[i] !in {'\r', '\n', '\0'}
  }

  function Escape(password: string): (r: string) {
    if password == "" then ""
    else (if password[0] == '\\' || password[0] == ':' then ['\\', password[0]] else [password[0]]) + Escape(password[1..])
  }

  const WILDCARDS := "*:*:*:*:"

  datatype Staging = Refused | NoFile | Staged(file: string)

  /** The one-line file staged for a tool: none for an empty password, and some passwords are refused. */
  function StagePassfile(password: string): (r: Staging) {
    if !Storable(password) then Refused
    else if password == "" then NoFile
    else Staged(WILDCARDS + Escape(password) + "\n")
  }

  /** The first line of a file, without its terminator. */
  function FirstLine(file: string): (line: string) {
    if file == "" || file[0] == '\n' then "" else [file[0]] + FirstLine(file[1..])
  }

  /** libpq's field rule: a wildcard field matches anything. */
  function SkipWildcard(line: string): (rest: Option<string>) {
    if |line| >= 2 && line[0] == '*' && line[1] == ':' then Some(line[2..]) else None
  }

  /** libpq's password rule: a backslash takes the next character literally, a bare colon ends the field. */
  function Unescape(s: string): (r: string)
    decreases |s|
  {
    if s == "" || s[0] == ':' then ""
    else if s[0] == '\\' && |s| >= 2 then [s[1]] + Unescape(s[2..])
    else [s[0]] + Unescape(s[1..])
  }

  function ReadPassfile(file: string): (password: Option<string>) {
    var line := FirstLine(file);
    match SkipWildcard(line)
    case None => None
    case Some(a) =>
      match SkipWildcard(a)
      case None => None
      case Some(b) =>
        match SkipWildcard(b)
        case None => None
        case Some(c) =>
          match SkipWildcard(c)
          case None => None
          case Some(field) => Some(Unescape(field))
  }

  lemma {:induction false} UnescapeUndoes(password: string)
    ensures Unescape(Escape(password)) == password
    decreases |password|
  {
    if password != "" {
      UnescapeUndoes(password[1..]);
      var e := Escape(password);
      if password[0] == '\\' || password[0] == ':' {
        assert e[2..] == Escape(password[1..]);
      } else {
        assert e[1..] == Escape(password[1..]);
      }
    }
  }

  lemma {:induction false} EscapeStaysOnLine(password: string)
    requires Storable(password)
    ensures forall i :: 0 <= i < |Escape(password)| ==> Escape(password)[i] != '\n'
    decreases |password|
  {
    if password != "" { EscapeStaysOnLine(password[1..]); }
  }

  lemma {:induction false} FirstLineOf(line: string, rest: string)
    requires forall i :: 0 <= i < |line| ==> line[i] != '\n'
    ensures FirstLine(line + "\n" + rest) == line
    decreases |line|
  {
    var s := line + "\n" + rest;
    if line != "" {
      FirstLineOf(line[1..], rest);
      assert s[1..] == line[1..] + "\n" + rest;
    }
  }

  lemma FourWildcards(field: string)
    ensures SkipWildcard(WILDCARDS + field) == Some("*:*:*:" + field)
    ensures SkipWildcard("*:*:*:" + field) == Some("*:*:" + field)
    ensures SkipWildcard("*:*:" + field) == Some("*:" + field)
    ensures SkipWildcard("*:" + field) == Some(field)
  {
    assert (WILDCARDS + field)[2..] == "*:*:*:" + field;
    assert ("*:*:*:" + field)[2..] == "*:*:" + field;
    assert ("*:*:" + field)[2..] == "*:" + field;
  }

  /** libpq reads back exactly the password that was staged, for every password the file can hold. */
  lemma PassfileRoundTrip(password: string)
    ensures StagePassfile(password) == Refused <==> !Storable(password)
    ensures StagePassfile(password) == NoFile <==> password == ""
    ensures StagePassfile(password).Staged? ==> ReadPassfile(StagePassfile(password).file) == Some(password)
  {
    if StagePassfile(password).Staged? {
      var e := Escape(password);
      var line := WILDCARDS + e;
      EscapeStaysOnLine(password);
      FirstLineOf(line, "");
      assert line + "\n" + "" == StagePassfile(password).file;
      UnescapeUndoes(password);
      FourWildcards(e);
    }
  }
}
