/** Quoting saved paths for a shell (`quote_path` and `paste` in `src/clipboard_client.rs`), against
    the quoting and token rules of POSIX.1-2017, Shell Command Language, sections 2.2 and 2.3. */
module ShellQuoting {
  import opened Wrappers

  const QUOTE: char := '\''
  const BACKSLASH: char := '\\'

  // ---- The shell ------------------------------------------------------------

  predicate Blank(c: char) { c == ' ' || c == '\t' }

  /** Characters section 2.2 says may be special when unquoted, beyond quotes, backslash and blanks. */
  predicate OtherSpecial(c: char) {
    c in "|&;<>()$`\"*?[#~=%\n"
  }

  /** Position of the first single quote, or the length of s. */
  function QuoteFrom(s: string, i: nat): (n: nat)
    requires i <= |s|
    ensures i <= n <= |s| && (n < |s| ==> s[n] == QUOTE)
    ensures forall j | i <= j < n :: s[j] != QUOTE
    decreases |s| - i
  {
    if i == |s| || s[i] == QUOTE then i else QuoteFrom(s, i + 1)
  }

  function Extend(word: Option<string>, text: string): Option<string> {
    Some((if word.Some? then word.value else "") + text)
  }

  /** The words a shell makes of s, given the word in progress. None if s leaves the part of the
      language without expansions and operators, or a quotation is unfinished. */
  function Words(s: string, word: Option<string>): Option<seq<string>>
    decreases |s|
  {
    if s == "" then Some(if word.Some? then [word.value] else [])
    else if Blank(s[0]) then
      var rest := Words(s[1..], None);
      if rest.None? then None else Some((if word.Some? then [word.value] else []) + rest.value)
    else if s[0] == QUOTE then
      // Section 2.2.2: everything up to the next single quote is literal.
      var close := QuoteFrom(s, 1);
      if close == |s| then None else Words(s[close + 1..], Extend(word, s[1..close]))
    else if s[0] == BACKSLASH then
      // Section 2.2.1: the next character is literal; an escaped newline disappears.
      if |s| == 1 then None
      else if s[1] == '\n' then Words(s[2..], word)
      else Words(s[2..], Extend(word, [s[1]]))
    else if OtherSpecial(s[0]) then None
    else Words(s[1..], Extend(word, [s[0]]))
  }

  // ---- The quoting ------------------------------------------------------------

  datatype Path = Utf8(text: string) | NotUtf8

  datatype PathError = PathNotUtf8 | ControlCharacters

  /** `char::is_control`: Unicode general category Cc. */
  predicate IsControl(c: char) {
    c as int <= 0x1F || 0x7F <= c as int <= 0x9F
  }

  /** `text.replace('\'', "'\\''")`. */
  function Escape(text: string): string {
    if text == "" then ""
    else (if text[0] == QUOTE then "'\\''" else [text[0]]) + Escape(text[1..])
  }

  function QuotePath(path: Path): Result<string, PathError> {
    match path
    case NotUtf8 => Err(PathNotUtf8)
    case Utf8(text) =>
      if exists i :: 0 <= i < |text| && IsControl(text[i]) then Err(ControlCharacters)
      else Ok("'" + Escape(text) + "'")
  }

  predicate Clean(path: Path) {
    path.Utf8? && forall i | 0 <= i < |path.text| :: !IsControl(path.text[i])
  }

  /** What `paste` types: each quoted path followed by a space, or the first path's error. */
  function QuotedLine(paths: seq<Path>): Result<string, PathError> {
    if paths == [] then Ok("")
    else
      match QuotePath(paths[0])
      case Err(e) => Err(e)
      case Ok(q) =>
        match QuotedLine(paths[1..])
        case Err(e) => Err(e)
        case Ok(rest) => Ok(q + " " + rest)
  }

  lemma {:induction false} QuotedLineAppend(paths: seq<Path>, path: Path)
    requires QuotedLine(paths).Ok?
    ensures QuotedLine(paths + [path])
         == match QuotePath(path) case Err(e) => Err(e) case Ok(q) => Ok(QuotedLine(paths).value + q + " ")
  {
    var whole := paths + [path];
    if paths == [] {
      assert whole[1..] == [];
      if QuotePath(path).Ok? {
        var q := QuotePath(path).value;
        assert q + " " + "" == "" + q + " ";
      }
    } else {
      assert whole[1..] == paths[1..] + [path];
      QuotedLineAppend(paths[1..], path);
      if QuotePath(path).Ok? {
        var q, first, rest := QuotePath(path).value, QuotePath(paths[0]).value, QuotedLine(paths[1..]).value;
        assert first + " " + (rest + q + " ") == (first + " " + rest) + q + " ";
      }
    }
  }

  lemma {:induction false} QuotedLineFails(paths: seq<Path>, n: nat)
    requires n < |paths| && QuotedLine(paths[..n]).Ok? && QuotePath(paths[n]).Err?
    ensures QuotedLine(paths) == Err(QuotePath(paths[n]).error)
  {
    if n > 0 {
      assert paths[..n][1..] == paths[1..][..n - 1];
      QuotedLineFails(paths[1..], n - 1);
    }
  }

  /** The quoting loop of `paste`. */
  method QuoteAll(paths: seq<Path>) returns (r: Result<string, PathError>)
    ensures r == QuotedLine(paths)
  {
    var quoted := "";
    for i := 0 to |paths|
      invariant QuotedLine(paths[..i]) == Ok(quoted)
    {
      var q := QuotePath(paths[i]);
      if q.Err? {
        QuotedLineFails(paths, i);
        return Err(q.error);
      }
      QuotedLineAppend(paths[..i], paths[i]);
      assert paths[..i + 1] == paths[..i] + [paths[i]];
      quoted := quoted + q.value;
      quoted := quoted + " ";
    }
    assert paths[..|paths|] == paths;
    return Ok(quoted);
  }

  // ---- The shell undoes the quoting ---------------------------------------------

  lemma {:induction false} EscapeSplits(a: string, b: string)
    requires QUOTE !in a
    ensures Escape(a + b) == a + Escape(b)
  {
    if a == "" {
      assert a + b == b;
    } else {
      assert (a + b)[1..] == a[1..] + b;
      EscapeSplits(a[1..], b);
      assert [a[0]] + (a[1..] + Escape(b)) == a + Escape(b);
    }
  }

  /** A quoted section without inner quotes adds its content to the word. */
  lemma SectionReads(a: string, rest: string, word: Option<string>)
    requires QUOTE !in a
    ensures Words("'" + a + "'" + rest, word) == Words(rest, Extend(word, a))
  {
    var s := "'" + a + "'" + rest;
    var n := QuoteFrom(s, 1);
    assert s[1 + |a|] == QUOTE && forall j | 1 <= j < 1 + |a| :: s[j] == a[j - 1];
    assert n == 1 + |a|;
    assert s[1..n] == a && s[n + 1..] == rest;
  }

  lemma EscapedQuoteReads(rest: string, word: Option<string>)
    ensures Words("\\'" + rest, word) == Words(rest, Extend(word, "'"))
  {
    var s := "\\'" + rest;
    assert s[2..] == rest && [s[1]] == "'";
  }

  lemma BlankEndsWord(rest: string, word: string)
    ensures Words(" " + rest, Some(word))
         == match Words(rest, None) case None => None case Some(words) => Some([word] + words)
  {
    assert (" " + rest)[1..] == rest;
  }

  lemma ExtendTwice(word: Option<string>, a: string, b: string)
    ensures Extend(Extend(word, a), b) == Extend(word, a + b)
  {
    var w := if word.Some? then word.value else "";
    assert (w + a) + b == w + (a + b);
  }

  /** The first inner quote splits the quoted form into a section, an escaped quote and the quoted
      form of the remainder. */
  lemma QuotedSplits(a: string, b: string)
    requires QUOTE !in a
    ensures "'" + Escape(a + "'" + b) + "'" == "'" + a + "'" + ("\\'" + ("'" + Escape(b) + "'"))
  {
    assert a + "'" + b == a + ("'" + b);
    EscapeSplits(a, "'" + b);
    assert ("'" + b)[1..] == b;
  }

  /** Whatever the text, its quoted form adds exactly that text to the word. */
  lemma {:induction false} QuotedReads(text: string, rest: string, word: Option<string>)
    ensures Words("'" + Escape(text) + "'" + rest, word) == Words(rest, Extend(word, text))
    decreases |text|
  {
    hide Words, Extend, Escape;
    var n := QuoteFrom(text, 0);
    var a := text[..n];
    if n == |text| {
      assert a == text && text + "" == text;
      EscapeSplits(text, "");
      assert Escape("") == "" by { EscapeNothing(); }
      SectionReads(text, rest, word);
    } else {
      var b := text[n + 1..];
      assert text == a + "'" + b;
      QuotedSplits(a, b);
      var quotedB := "'" + Escape(b) + "'";
      assert "'" + a + "'" + ("\\'" + quotedB) + rest == "'" + a + "'" + ("\\'" + (quotedB + rest));
      SectionReads(a, "\\'" + (quotedB + rest), word);
      EscapedQuoteReads(quotedB + rest, Extend(word, a));
      QuotedReads(b, rest, Extend(Extend(word, a), "'"));
      ExtendTwice(word, a, "'");
      ExtendTwice(word, a + "'", b);
    }
  }

  lemma EscapeNothing()
    ensures Escape("") == ""
  {
  }

  function Texts(paths: seq<Path>): seq<string>
    requires forall p | p in paths :: Clean(p)
  {
    if paths == [] then [] else
      assert Clean(paths[0]);
      [paths[0].text] + Texts(paths[1..])
  }

  lemma QuotePathOk(path: Path)
    ensures QuotePath(path).Ok? <==> Clean(path)
    ensures Clean(path) ==> QuotePath(path).value == "'" + Escape(path.text) + "'"
  {
  }

  /** Main result: the line is produced exactly when every path is free of control characters, and a
      shell reads it back as exactly those paths, one word each, whatever characters they hold. */
  lemma {:induction false} ShellReadsPathsBack(paths: seq<Path>)
    ensures QuotedLine(paths).Ok? <==> forall p | p in paths :: Clean(p)
    ensures QuotedLine(paths).Ok? ==> Words(QuotedLine(paths).value, None) == Some(Texts(paths))
  {
    if paths != [] {
      hide Words, Escape, QuotePath, Clean;
      ShellReadsPathsBack(paths[1..]);
      QuotePathOk(paths[0]);
      assert forall p | p in paths :: p == paths[0] || p in paths[1..];
      assert paths[0] in paths && forall p | p in paths[1..] :: p in paths;
      if QuotedLine(paths).Ok? {
        LineReads(paths[0].text, QuotedLine(paths[1..]).value);
      }
    }
  }

  lemma LineReads(text: string, rest: string)
    ensures Words("'" + Escape(text) + "'" + " " + rest, None)
         == match Words(rest, None) case None => None case Some(words) => Some([text] + words)
  {
    hide Words, Escape;
    var quoted := "'" + Escape(text) + "'";
    assert quoted + " " + rest == quoted + (" " + rest);
    QuotedReads(text, " " + rest, None);
    assert "" + text == text;
    BlankEndsWord(rest, text);
  }

  /** A character that prints: no C0 control (newline, escape), no DEL and no C1 control. */
  predicate Prints(c: char) { ' ' <= c && !(0x7F <= c as int < 0xA0) }

  lemma {:induction false} EscapePrints(text: string)
    requires forall c | c in text :: Prints(c)
    ensures forall c | c in Escape(text) :: Prints(c)
  {
    if text != "" {
      assert text[0] in text;
      EscapePrints(text[1..]);
    }
  }

  /** Main result: what is typed into a terminal can neither submit the command nor start an escape sequence,
      and it is produced for all paths that are text and have no such character. */
  lemma {:induction false} QuotedLinePrints(paths: seq<Path>)
    ensures QuotedLine(paths).Ok? <==> forall p | p in paths :: p.Utf8? && forall c | c in p.text :: Prints(c)
    ensures QuotedLine(paths).Ok? ==> forall c | c in QuotedLine(paths).value :: Prints(c)
  {
    if paths != [] {
      QuotedLinePrints(paths[1..]);
      assert paths == [paths[0]] + paths[1..];
      if paths[0].Utf8? && forall c | c in paths[0].text :: Prints(c) { EscapePrints(paths[0].text); }
      CleanPrints(paths[0]);
    }
  }

  lemma CleanPrints(path: Path)
    ensures QuotePath(path).Ok? <==> path.Utf8? && forall c | c in path.text :: Prints(c)
  {
    if path.Utf8? { assert forall c | c in path.text :: Prints(c) <==> !IsControl(c); }
  }
}
