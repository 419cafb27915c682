/** What `parse_line` and `read_lines` of scripts/trial_record.py make of text that slog need not have printed. */
module LogText {
  import opened Common
  import opened Text
  import opened Logfmt

  // ---- one line ---------------------------------------------------------

  /** A run without white space. */
  predicate Solid(s: string) {
    forall i :: 0 <= i < |s| ==> !IsSpace(s[i])
  }

  predicate AtGap(t: string) {
    t == "" || IsSpace(t[0])
  }

  lemma {:induction false} RunToGap(h: string, t: string, stop: bool)
    requires Solid(h) && (stop ==> '=' !in h)
    requires AtGap(t) || (stop && t[0] == '=')
    ensures RunLen(h + t, stop) == |h|
  {
    if h == "" {
      assert h + t == t;
    } else {
      RunToGap(h[1..], t, stop);
      assert (h + t)[1..] == h[1..] + t;
      assert (h + t)[0] == h[0];
    }
  }

  /** A bare value runs to the next white space, over any further `=`. */
  lemma BareField(k: string, v: string, t: string)
    requires k != "" && k[0] != '"' && Solid(k) && '=' !in k
    requires (v == "" || v[0] != '"') && Solid(v) && AtGap(t)
    ensures FindAll(k + "=" + v + t) == [(k, v)] + FindAll(t)
  {
    KeyRun(k, v + t);
    RunToGap(v, t, false);
    assert v + t == "" || (v + t)[0] != '"';
    FieldAt(k, v, t);
  }

  lemma KeyRun(k: string, t: string)
    requires k != "" && k[0] != '"' && Solid(k) && '=' !in k
    ensures KeyLen(k + "=" + t) == Some(|k|)
  {
    var s := k + "=" + t;
    assert s == k + ("=" + t);
    RunToGap(k, "=" + t, true);
    assert s[0] == k[0] && s[|k|] == '=';
  }

  /** Text between quotes: no bare quote, every backslash with the character it escapes. */
  predicate Body(s: string) {
    s == "" || (if s[0] == '\\' then |s| >= 2 && s[1] != '\n' && Body(s[2..]) else s[0] != '"' && Body(s[1..]))
  }

  lemma {:induction false} BodyLen(s: string, t: string)
    requires Body(s)
    ensures QuotedLen(s + "\"" + t) == Some(|s| + 1)
    decreases |s|
  {
    var all := s + "\"" + t;
    if s == "" {
      assert all == "\"" + t;
    } else if s[0] == '\\' {
      BodyLen(s[2..], t);
      assert all[2..] == s[2..] + "\"" + t;
    } else {
      BodyLen(s[1..], t);
      assert all[1..] == s[1..] + "\"" + t;
    }
  }

  /** A quoted value runs to its closing quote, over white space, `=` and escaped quotes. */
  lemma QuotedField(k: string, body: string, t: string)
    requires k != "" && k[0] != '"' && Solid(k) && '=' !in k && Body(body)
    ensures FindAll(k + "=" + ("\"" + body + "\"") + t) == [(k, "\"" + body + "\"")] + FindAll(t)
  {
    var v := "\"" + body + "\"";
    KeyRun(k, v + t);
    BodyLen(body, t);
    ValueLenQuoted(body, t);
    FieldAt(k, v, t);
  }

  lemma FieldAt(k: string, v: string, t: string)
    requires KeyLen(k + "=" + (v + t)) == Some(|k|) && ValueLen(v + t) == |v|
    ensures FindAll(k + "=" + v + t) == [(k, v)] + FindAll(t)
  {
    var s := k + "=" + v + t;
    assert s == k + "=" + (v + t);
    assert s[..|k|] == k && s[|k| + 1..] == v + t;
    assert (v + t)[..|v|] == v && (v + t)[|v|..] == t;
  }

  /** Words without `=` and white space are passed over. */
  lemma {:induction false} Skipped(w: string, t: string)
    requires '=' !in w && '"' !in w && (w == "" || IsSpace(w[|w| - 1]))
    ensures FindAll(w + t) == FindAll(t)
    decreases |w|
  {
    if w == "" {
      assert w + t == t;
    } else {
      var n := GapIn(w);
      RunToGap(w[..n], w[n..] + t, true);
      assert w + t == w[..n] + (w[n..] + t);
      assert n < |w + t| && (w + t)[n] == w[n] != '=';
      assert KeyLen(w + t).None?;
      assert (w + t)[1..] == w[1..] + t;
      Skipped(w[1..], t);
    }
  }

  lemma {:induction false} GapIn(w: string) returns (n: nat)
    requires w != "" && IsSpace(w[|w| - 1])
    ensures n < |w| && IsSpace(w[n]) && Solid(w[..n])
  {
    if IsSpace(w[0]) {
      n := 0;
    } else {
      n := GapIn(w[1..]);
      n := n + 1;
      assert w[..n] == [w[0]] + w[1..][..n - 1];
    }
  }

  /** A line without `=` has no fields. */
  lemma {:induction false} NoFields(s: string)
    requires '=' !in s
    ensures FindAll(s) == [] && ParseLine(s) == map[]
  {
    if s == "" {
    } else {
      NoFields(s[1..]);
      assert KeyLen(s).None?;
    }
  }

  /** Of a key given twice the last value counts. */
  lemma LastWins(ps: Pairs, k: string, v: string)
    ensures ToRecord(ps + [(k, v)])[k] == v
    ensures forall other :: other != k ==>
              && (other in ToRecord(ps + [(k, v)]) <==> other in ToRecord(ps))
              && (other in ToRecord(ps) ==> ToRecord(ps + [(k, v)])[other] == ToRecord(ps)[other])
  {
    RecordSnoc(ps, (k, v));
  }

  // ---- json.loads -------------------------------------------------------

  lemma {:induction false} JsonPlain(s: string, t: string)
    requires forall i :: 0 <= i < |s| ==> s[i] != '"' && s[i] != '\\' && s[i] >= ' '
    ensures JsonText(s + t) == match JsonText(t) case None => None case Some(u) => Some(s + u)
  {
    if s == "" {
      assert s + t == t;
      assert JsonText(t).Some? ==> "" + JsonText(t).value == JsonText(t).value;
    } else {
      JsonPlain(s[1..], t);
      PlainHead(s + t);
      assert (s + t)[1..] == s[1..] + t;
      assert JsonText(t).Some? ==> [s[0]] + (s[1..] + JsonText(t).value) == s + JsonText(t).value;
    }
  }

  lemma PlainHead(s: string)
    requires s != "" && s[0] != '"' && s[0] != '\\' && s[0] >= ' '
    ensures JsonText(s) == Prepend(s[0], JsonText(s[1..]))
  {}

  /** The escapes of JSON, and no others. */
  lemma JsonEscapes(c: char, t: string)
    ensures c in ['"', '\\', '/'] ==> JsonText(['\\', c] + t) == Prepend(c, JsonText(t))
    ensures JsonText("\\b" + t) == Prepend(8 as char, JsonText(t))
    ensures JsonText("\\f" + t) == Prepend(12 as char, JsonText(t))
    ensures JsonText("\\n" + t) == Prepend('\n', JsonText(t)) && JsonText("\\r" + t) == Prepend('\r', JsonText(t))
    ensures JsonText("\\t" + t) == Prepend('\t', JsonText(t))
    ensures c !in ['"', '\\', '/', 'b', 'f', 'n', 'r', 't', 'u'] ==> JsonText(['\\', c] + t).None?
  {
    if c != 'u' {
      JsonTextPair(c, t);
    }
    JsonTextPair('b', t);
    JsonTextPair('f', t);
    JsonTextPair('n', t);
    JsonTextPair('r', t);
    JsonTextPair('t', t);
  }

  /** A quoted token that is no JSON string is read as what stands between its quotes; a bare one as it is. */
  lemma Unquoted(body: string)
    ensures Unquote("\"" + body + "\"") == if JsonText(body).Some? then JsonText(body).value else body
    ensures |body| < 2 || body[0] != '"' || body[|body| - 1] != '"' ==> Unquote(body) == body
  {
    var tok := "\"" + body + "\"";
    assert tok[1..|tok| - 1] == body;
  }

  // ---- a file -----------------------------------------------------------

  /** A line ends at any line boundary; a carriage return takes the line feed after it along. */
  lemma LineEnds(l: string, c: char, t: string)
    requires NoBreaks(l) && IsBreak(c)
    ensures c == '\r' && t != "" && t[0] == '\n' ==> SplitLines(l + [c] + t) == [l] + SplitLines(t[1..])
    ensures !(c == '\r' && t != "" && t[0] == '\n') ==> SplitLines(l + [c] + t) == [l] + SplitLines(t)
  {
    var s := l + [c] + t;
    BreakHere(l, c, t);
    assert s[..|l|] == l && s[|l|] == c && s[|l| + 1..] == t;
    if c == '\r' && t != "" && t[0] == '\n' {
      assert s[|l| + 1] == '\n' && s[|l| + 2..] == t[1..];
    } else if t != "" {
      assert s[|l| + 1] == t[0];
    }
  }

  lemma {:induction false} BreakHere(l: string, c: char, t: string)
    requires NoBreaks(l) && IsBreak(c)
    ensures BreakAt(l + [c] + t) == |l|
  {
    if l == "" {
      assert l + [c] + t == [c] + t;
    } else {
      BreakHere(l[1..], c, t);
      assert (l + [c] + t)[1..] == l[1..] + [c] + t;
      assert !IsBreak(l[0]);
    }
  }

  /** A line of white space is no record. */
  lemma BlankSkipped(l: string, t: string)
    requires NoBreaks(l) && forall i :: 0 <= i < |l| ==> IsSpace(l[i])
    ensures ReadLines(l + "\n" + t) == ReadLines(t)
  {
    SplitFirst(l, t);
    FilterAppend([l], SplitLines(t), NotBlank);
    assert Filter([l], NotBlank) == [];
    assert [] + Filter(SplitLines(t), NotBlank) == Filter(SplitLines(t), NotBlank);
  }

  /** Any other line is one, in place. */
  lemma LineRead(l: string, t: string)
    requires NoBreaks(l) && NotBlank(l)
    ensures ReadLines(l + "\n" + t) == [ParseLine(l)] + ReadLines(t)
  {
    SplitFirst(l, t);
    FilterCons(l, SplitLines(t), NotBlank);
    MapCons(l, Filter(SplitLines(t), NotBlank), ParseLine);
  }

  lemma FilterCons<T>(x: T, xs: seq<T>, keep: T -> bool)
    requires keep(x)
    ensures Filter([x] + xs, keep) == [x] + Filter(xs, keep)
  {
    FilterAppend([x], xs, keep);
    assert Filter([x], keep) == [x];
  }

  lemma MapCons<A, B>(x: A, xs: seq<A>, f: A -> B)
    ensures Map([x] + xs, f) == [f(x)] + Map(xs, f)
  {}

  // ---- the printed form -------------------------------------------------

  /** A word of printable characters is printed as it is; with a space, an equals sign or a quote in it, or with
      nothing in it, it is quoted. */
  lemma Bare(v: string, graphic: char -> bool)
    requires v != "" && forall i :: 0 <= i < |v| ==> '!' <= v[i] <= '~' && v[i] != '=' && v[i] != '"'
    ensures Token(v, graphic) == v
  {}

  /** Keys and values, with one space between the pairs. */
  lemma PrintTwo(a: (string, string), b: (string, string), graphic: char -> bool)
    ensures PrintLine([a, b], graphic)
         == Token(a.0, graphic) + "=" + Token(a.1, graphic) + " " + (Token(b.0, graphic) + "=" + Token(b.1, graphic))
  {
    assert [a, b][1..] == [b];
  }

  lemma {:induction false} PlainEscape(v: string, graphic: char -> bool)
    requires forall i :: 0 <= i < |v| ==> ' ' <= v[i] <= '~' && v[i] != '"' && v[i] != '\\'
    ensures Escape(v, graphic) == v
  {
    if v == "" {
    } else {
      PlainEscape(v[1..], graphic);
    }
  }

  lemma QuotedText(v: string, graphic: char -> bool)
    requires forall i :: 0 <= i < |v| ==> ' ' <= v[i] <= '~' && v[i] != '"' && v[i] != '\\'
    requires ' ' in v
    ensures Token(v, graphic) == "\"" + v + "\""
  {
    PlainEscape(v, graphic);
    assert !IsBare(' ', graphic);
  }

  lemma QuotedTokens(graphic: char -> bool)
    ensures Token("", graphic) == "\"\""
    ensures Token("a=\"b\"", graphic) == "\"a=\\\"b\\\"\""
  {
    assert !IsBare('=', graphic) && "a=\"b\""[1] == '=';
    assert Escape("\"", graphic) == "\\\"" by { assert "\""[1..] == ""; }
    assert Escape("b\"", graphic) == "b\\\"" by { assert "b\""[1..] == "\""; }
    assert Escape("\"b\"", graphic) == "\\\"b\\\"" by { assert "\"b\""[1..] == "b\""; }
    assert Escape("=\"b\"", graphic) == "=\\\"b\\\"" by { assert "=\"b\""[1..] == "\"b\""; }
    assert Escape("a=\"b\"", graphic) == "a=\\\"b\\\"" by { assert "a=\"b\""[1..] == "=\"b\""; }
  }

  /** What strconv.Quote writes for the characters it does not print as they are. */
  lemma Escapes(graphic: char -> bool)
    ensures EscapeChar('"', graphic) == "\\\"" && EscapeChar('\\', graphic) == "\\\\"
    ensures EscapeChar('\n', graphic) == "\\n" && EscapeChar('\r', graphic) == "\\r"
    ensures EscapeChar('\t', graphic) == "\\t" && EscapeChar(7 as char, graphic) == "\\a"
    ensures EscapeChar(8 as char, graphic) == "\\b" && EscapeChar(11 as char, graphic) == "\\v"
    ensures EscapeChar(12 as char, graphic) == "\\f"
  {}

  lemma HexEscapes(c: char, graphic: char -> bool)
    requires !IsPrint(c, graphic)
    ensures c == 27 as char ==> EscapeChar(c, graphic) == "\\x" + "1b"
    ensures c == 127 as char ==> EscapeChar(c, graphic) == "\\x" + "7f"
    ensures c == 0x2028 as char ==> EscapeChar(c, graphic) == "\\u" + "2028"
  {
    if c == 27 as char {
      assert Hex(1, 1) == "1";
    } else if c == 127 as char {
      assert Hex(7, 1) == "7";
    } else if c == 0x2028 as char {
      assert Hex(2, 1) == "2" && Hex(0x20, 2) == "20" && Hex(0x202, 3) == "202";
    }
  }
}
