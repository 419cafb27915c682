/** logfmt: the line slog's TextHandler prints against `parse_line`, `unquote` and
    `read_lines` of scripts/trial_record.py.

    slog and strconv are not in the repository. Their form is the one described at
    scripts/trial_record.py:75-77: bare tokens, or strconv.Quote for keys and values.
    `graphic` stands for Go's choice of printable characters outside ASCII; nothing
    below depends on it. Text is a sequence of Unicode scalar values. */
module Logfmt {
  import opened Common
  import opened Text

  type Pairs = seq<(string, string)>
  type Record = map<string, string>

  // ---- characters -------------------------------------------------------

  /** Python's `\s` on str. */
  predicate IsSpace(c: char) {
    var n := c as int;
    9 <= n <= 13 || 28 <= n <= 32 || n == 0x85 || n == 0xa0 || n == 0x1680 || 0x2000 <= n <= 0x200a
    || n == 0x2028 || n == 0x2029 || n == 0x202f || n == 0x205f || n == 0x3000
  }

  /** The boundaries of str.splitlines. */
  predicate IsBreak(c: char) {
    var n := c as int;
    10 <= n <= 13 || 28 <= n <= 30 || n == 0x85 || n == 0x2028 || n == 0x2029
  }

  /** strconv.IsPrint: the ASCII graphic characters and the space, and `graphic` ones that are no space. */
  predicate IsPrint(c: char, graphic: char -> bool) {
    ' ' <= c <= '~' || (c as int > 0x7f && graphic(c) && !IsSpace(c))
  }

  /** A character a bare token may hold. */
  predicate IsBare(c: char, graphic: char -> bool) {
    c as int == 0x7f || (IsPrint(c, graphic) && c != ' ' && c != '=' && c != '"')
  }

  // ---- the printer ------------------------------------------------------

  /** strconv.Quote of one character. */
  function EscapeChar(c: char, graphic: char -> bool): (s: string)
    ensures s != ""
  {
    var n := c as int;
    if c == '"' || c == '\\' then ['\\', c]
    else if IsPrint(c, graphic) then [c]
    else if n == 7 then "\\a"
    else if n == 8 then "\\b"
    else if n == 12 then "\\f"
    else if n == 10 then "\\n"
    else if n == 13 then "\\r"
    else if n == 9 then "\\t"
    else if n == 11 then "\\v"
    else if n < 0x20 || n == 0x7f then "\\x" + Hex(n, 2)
    else if n < 0x10000 then "\\u" + Hex(n, 4)
    else "\\U" + Hex(n, 8)
  }

  function Escape(v: string, graphic: char -> bool): string {
    if v == "" then "" else EscapeChar(v[0], graphic) + Escape(v[1..], graphic)
  }

  predicate NeedsQuote(v: string, graphic: char -> bool) {
    v == "" || exists i :: 0 <= i < |v| && !IsBare(v[i], graphic)
  }

  function Token(v: string, graphic: char -> bool): string {
    if NeedsQuote(v, graphic) then "\"" + Escape(v, graphic) + "\"" else v
  }

  function PrintPair(p: (string, string), graphic: char -> bool): string {
    Token(p.0, graphic) + "=" + Token(p.1, graphic)
  }

  function PrintLine(ps: Pairs, graphic: char -> bool): string {
    if ps == [] then ""
    else if |ps| == 1 then PrintPair(ps[0], graphic)
    else PrintPair(ps[0], graphic) + " " + PrintLine(ps[1..], graphic)
  }

  function PrintLog(lines: seq<Pairs>, graphic: char -> bool): string {
    if lines == [] then "" else PrintLine(lines[0], graphic) + "\n" + PrintLog(lines[1..], graphic)
  }

  // ---- the reader -------------------------------------------------------

  /** Length of `(?:[^"\\]|\\.)*"` at the head of `s`; the pattern matches in at most one way. */
  function QuotedLen(s: string): (r: Option<nat>)
    ensures r.Some? ==> 1 <= r.value <= |s|
  {
    if s == "" then None
    else if s[0] == '"' then Some(1)
    else if s[0] == '\\' then
      if |s| == 1 || s[1] == '\n' then None
      else match QuotedLen(s[2..]) case None => None case Some(n) => Some(n + 2)
    else match QuotedLen(s[1..]) case None => None case Some(n) => Some(n + 1)
  }

  /** Length of the longest run of `[^\s]`, or of `[^\s=]` when `stop` is set. */
  function RunLen(s: string, stop: bool): (n: nat)
    ensures n <= |s|
  {
    if s == "" || IsSpace(s[0]) || (stop && s[0] == '=') then 0 else 1 + RunLen(s[1..], stop)
  }

  function KeyLen(s: string): (r: Option<nat>)
    ensures r.Some? ==> 0 < r.value < |s| && s[r.value] == '='
  {
    var quoted := if s != "" && s[0] == '"' then QuotedLen(s[1..]) else None;
    if quoted.Some? && 1 + quoted.value < |s| && s[1 + quoted.value] == '=' then Some(1 + quoted.value)
    else
      var n := RunLen(s, true);
      if 0 < n < |s| && s[n] == '=' then Some(n) else None
  }

  function ValueLen(s: string): (n: nat)
    ensures n <= |s|
  {
    var quoted := if s != "" && s[0] == '"' then QuotedLen(s[1..]) else None;
    if quoted.Some? then 1 + quoted.value else RunLen(s, false)
  }

  /** `_PAIR.findall`, on any line: leftmost matches, each step deterministic. */
  function FindAll(s: string): Pairs
    decreases |s|
  {
    if s == "" then []
    else match KeyLen(s)
      case None => FindAll(s[1..])
      case Some(k) =>
        var rest := s[k + 1..];
        var v := ValueLen(rest);
        [(s[..k], rest[..v])] + FindAll(rest[v..])
  }

  predicate AllHex(s: string) {
    forall i :: 0 <= i < |s| ==> IsHex(s[i])
  }

  function HexNumber(s: string): nat
    requires AllHex(s)
  {
    if s == "" then 0 else 16 * HexNumber(s[..|s| - 1]) + HexValue(s[|s| - 1])
  }

  function SimpleEscape(c: char): Option<char> {
    if c == '"' || c == '\\' || c == '/' then Some(c)
    else if c == 'b' then Some(8 as char)
    else if c == 'f' then Some(12 as char)
    else if c == 'n' then Some('\n')
    else if c == 'r' then Some('\r')
    else if c == 't' then Some('\t')
    else None
  }

  /** json.loads of the text between two quotes; None is its ValueError. */
  function JsonText(s: string): Option<string>
    decreases |s|
  {
    if s == "" then Some("")
    else if s[0] == '"' || s[0] < ' ' then None
    else if s[0] != '\\' then Prepend(s[0], JsonText(s[1..]))
    else if |s| == 1 then None
    else if SimpleEscape(s[1]).Some? then Prepend(SimpleEscape(s[1]).value, JsonText(s[2..]))
    else if s[1] == 'u' && |s| >= 6 && AllHex(s[2..6]) && IsScalar(HexNumber(s[2..6])) then
      Prepend(HexNumber(s[2..6]) as char, JsonText(s[6..]))
    else None
  }

  predicate IsScalar(n: nat) {
    n < 0xd800 || 0xe000 <= n < 0x11_0000
  }

  function Prepend(c: char, s: Option<string>): Option<string> {
    match s case None => None case Some(t) => Some([c] + t)
  }

  /** `unquote`. */
  function Unquote(tok: string): string {
    if |tok| >= 2 && tok[0] == '"' && tok[|tok| - 1] == '"' then
      var inner := tok[1..|tok| - 1];
      match JsonText(inner) case Some(v) => v case None => inner
    else tok
  }

  /** A dict built from pairs, later ones winning. */
  function ToRecord(ps: Pairs): Record {
    if ps == [] then map[] else ToRecord(ps[..|ps| - 1])[ps[|ps| - 1].0 := ps[|ps| - 1].1]
  }

  function UnquotePair(p: (string, string)): (string, string) {
    (Unquote(p.0), Unquote(p.1))
  }

  /** `parse_line`. */
  function ParseLine(line: string): Record {
    ToRecord(Map(FindAll(line), UnquotePair))
  }

  function BreakAt(text: string): (n: nat)
    ensures n <= |text|
    ensures n < |text| ==> IsBreak(text[n])
  {
    if text == "" || IsBreak(text[0]) then 0 else 1 + BreakAt(text[1..])
  }

  /** str.splitlines: a carriage return and line feed in a row are one boundary. */
  function SplitLines(text: string): seq<string>
    decreases |text|
  {
    if text == "" then []
    else
      var n := BreakAt(text);
      if n == |text| then [text]
      else if text[n] == '\r' && n + 1 < |text| && text[n + 1] == '\n' then [text[..n]] + SplitLines(text[n + 2..])
      else [text[..n]] + SplitLines(text[n + 1..])
  }

  predicate NotBlank(line: string) {
    exists i :: 0 <= i < |line| && !IsSpace(line[i])
  }

  /** `read_lines` on a captured log's text. */
  function ReadLines(text: string): seq<Record> {
    Map(Filter(SplitLines(text), NotBlank), ParseLine)
  }

  // ---- what survives the trip -------------------------------------------

  /** The characters whose Go escape is also a JSON escape. */
  predicate JsonSafeChar(c: char, graphic: char -> bool) {
    var n := c as int;
    IsPrint(c, graphic) || n == 8 || n == 9 || n == 10 || n == 12 || n == 13 || 0x80 <= n < 0x10000
  }

  predicate JsonSafe(v: string, graphic: char -> bool) {
    forall i :: 0 <= i < |v| ==> JsonSafeChar(v[i], graphic)
  }

  /** What the reader gets for a printed value. */
  function Recovered(v: string, graphic: char -> bool): string {
    if !NeedsQuote(v, graphic) || JsonSafe(v, graphic) then v else Escape(v, graphic)
  }

  function Recovering(graphic: char -> bool): ((string, string)) -> (string, string) {
    (p: (string, string)) => RecoverPair(p, graphic)
  }

  function RecoverPair(p: (string, string), graphic: char -> bool): (string, string) {
    (Recovered(p.0, graphic), Recovered(p.1, graphic))
  }

  // ---- proofs: one token ------------------------------------------------

  predicate IsPlain(c: char) {
    c != '"' && c != '\\'
  }

  lemma {:induction false} QuotedLenPlain(h: string, t: string)
    requires forall i :: 0 <= i < |h| ==> IsPlain(h[i])
    ensures QuotedLen(h + t) == match QuotedLen(t) case None => None case Some(n) => Some(n + |h|)
  {
    if h == "" {
      assert h + t == t;
    } else {
      QuotedLenPlain(h[1..], t);
      assert (h + t)[1..] == h[1..] + t;
    }
  }

  lemma QuotedLenChar(c: char, t: string, graphic: char -> bool)
    ensures var e := EscapeChar(c, graphic);
            QuotedLen(e + t) == match QuotedLen(t) case None => None case Some(n) => Some(n + |e|)
  {
    var e := EscapeChar(c, graphic);
    if e == [c] {
      QuotedLenPlain(e, t);
    } else {
      assert e[0] == '\\' && e[1] != '\n';
      assert (e + t)[2..] == e[2..] + t;
      QuotedLenPlain(e[2..], t);
    }
  }

  lemma Regroup(e: string, es: string, rest: string)
    ensures e + es + "\"" + rest == e + (es + "\"" + rest)
  {}

  lemma {:induction false} QuotedLenEscape(v: string, rest: string, graphic: char -> bool)
    ensures QuotedLen(Escape(v, graphic) + "\"" + rest) == Some(|Escape(v, graphic)| + 1)
  {
    if v == "" {
      assert Escape(v, graphic) + "\"" + rest == "\"" + rest;
    } else {
      var e, es := EscapeChar(v[0], graphic), Escape(v[1..], graphic);
      var t := es + "\"" + rest;
      QuotedLenEscape(v[1..], rest, graphic);
      QuotedLenChar(v[0], t, graphic);
      Regroup(e, es, rest);
    }
  }

  lemma {:induction false} RunLenBare(h: string, t: string, stop: bool, graphic: char -> bool)
    requires forall i :: 0 <= i < |h| ==> IsBare(h[i], graphic)
    requires t == "" || IsSpace(t[0]) || (stop && t[0] == '=')
    ensures RunLen(h + t, stop) == |h|
  {
    if h == "" {
      assert h + t == t;
    } else {
      RunLenBare(h[1..], t, stop, graphic);
      assert (h + t)[1..] == h[1..] + t;
    }
  }

  lemma KeyLenQuoted(e: string, t: string)
    requires QuotedLen(e + "\"" + ("=" + t)) == Some(|e| + 1)
    ensures KeyLen("\"" + e + "\"" + "=" + t) == Some(|e| + 2)
  {
    var s := "\"" + e + "\"" + "=" + t;
    QuotedKey(s, e, t);
  }

  lemma QuotedKey(s: string, e: string, t: string)
    requires s == "\"" + e + "\"" + "=" + t
    ensures |s| > |e| + 2 && s[0] == '"' && s[1..] == e + "\"" + ("=" + t) && s[|e| + 2] == '='
  {}

  lemma KeyLenBare(k: string, t: string, graphic: char -> bool)
    requires !NeedsQuote(k, graphic)
    ensures KeyLen(k + "=" + t) == Some(|k|)
  {
    RunLenBare(k, "=" + t, true, graphic);
    var s := k + "=" + t;
    assert s == k + ("=" + t);
    assert s[0] == k[0] && IsBare(k[0], graphic);
    assert s[|k|] == '=';
  }

  lemma KeyLenToken(k: string, t: string, graphic: char -> bool)
    ensures KeyLen(Token(k, graphic) + "=" + t) == Some(|Token(k, graphic)|)
  {
    if NeedsQuote(k, graphic) {
      QuotedLenEscape(k, "=" + t, graphic);
      KeyLenQuoted(Escape(k, graphic), t);
    } else {
      KeyLenBare(k, t, graphic);
    }
  }

  lemma ValueLenQuoted(e: string, t: string)
    requires QuotedLen(e + "\"" + t) == Some(|e| + 1)
    ensures ValueLen("\"" + e + "\"" + t) == |e| + 2
  {
    assert ("\"" + e + "\"" + t)[1..] == e + "\"" + t;
  }

  lemma ValueLenToken(v: string, t: string, graphic: char -> bool)
    requires t == "" || IsSpace(t[0])
    ensures ValueLen(Token(v, graphic) + t) == |Token(v, graphic)|
  {
    if NeedsQuote(v, graphic) {
      QuotedLenEscape(v, t, graphic);
      ValueLenQuoted(Escape(v, graphic), t);
    } else {
      RunLenBare(v, t, false, graphic);
      assert (v + t)[0] == v[0] && IsBare(v[0], graphic);
    }
  }

  lemma {:induction false} HexNumberOf(n: nat, width: nat)
    ensures AllHex(Hex(n, width))
    ensures n < Pow16(width) ==> HexNumber(Hex(n, width)) == n
  {
    if width == 0 {
    } else {
      HexNumberOf(n / 16, width - 1);
      HexRoundTrip(n % 16);
    }
  }

  /** The escapes of four hexadecimal digits. */
  lemma JsonTextHex(n: nat, t: string)
    requires n < 0x10000
    ensures JsonText("\\u" + Hex(n, 4) + t) == if IsScalar(n) then Prepend(n as char, JsonText(t)) else None
  {
    var h := Hex(n, 4);
    var s := "\\u" + h + t;
    assert Pow16(4) == 0x10000;
    HexNumberOf(n, 4);
    assert s[0] == '\\' && s[1] == 'u' && s[2..6] == h && s[6..] == t;
  }

  /** A backslash and one more character. */
  lemma JsonTextPair(c: char, t: string)
    requires c != 'u'
    ensures JsonText(['\\', c] + t)
        == if SimpleEscape(c).Some? then Prepend(SimpleEscape(c).value, JsonText(t)) else None
  {
    assert (['\\', c] + t)[2..] == t;
  }

  lemma SplitTwo(e: string, t: string)
    requires |e| >= 2
    ensures [e[0], e[1]] + (e[2..] + t) == e + t
    ensures |e| == 2 ==> e[2..] + t == t
  {}

  lemma JsonTextChar(c: char, t: string, graphic: char -> bool)
    ensures JsonText(EscapeChar(c, graphic) + t)
         == if JsonSafeChar(c, graphic) then Prepend(c, JsonText(t)) else None
  {
    var e := EscapeChar(c, graphic);
    if e == [c] {
      assert (e + t)[1..] == t;
    } else if e[1] == 'u' {
      JsonTextHex(c as int, t);
    } else {
      JsonTextPair(e[1], e[2..] + t);
      SplitTwo(e, t);
    }
  }

  /** json.loads undoes strconv.Quote exactly when every character is JSON safe, and fails otherwise. */
  lemma {:induction false} JsonTextEscape(v: string, graphic: char -> bool)
    ensures JsonText(Escape(v, graphic)) == if JsonSafe(v, graphic) then Some(v) else None
  {
    if v == "" {
    } else {
      JsonTextEscape(v[1..], graphic);
      JsonTextChar(v[0], Escape(v[1..], graphic), graphic);
      assert v == [v[0]] + v[1..];
    }
  }

  lemma UnquoteToken(v: string, graphic: char -> bool)
    ensures Unquote(Token(v, graphic)) == Recovered(v, graphic)
  {
    var tok := Token(v, graphic);
    if NeedsQuote(v, graphic) {
      JsonTextEscape(v, graphic);
      assert tok[1..|tok| - 1] == Escape(v, graphic);
    } else {
      assert IsBare(v[0], graphic);
    }
  }

  lemma {:induction false} EscapeLength(v: string, graphic: char -> bool)
    ensures |Escape(v, graphic)| >= |v|
    ensures !JsonSafe(v, graphic) ==> |Escape(v, graphic)| > |v|
  {
    if v == "" {
    } else {
      EscapeLength(v[1..], graphic);
    }
  }

  /** A printed value is read back unchanged exactly when it is printed bare or is JSON safe. */
  lemma ValueSurvivesIff(v: string, graphic: char -> bool)
    ensures Unquote(Token(v, graphic)) == v <==> !NeedsQuote(v, graphic) || JsonSafe(v, graphic)
  {
    UnquoteToken(v, graphic);
    EscapeLength(v, graphic);
  }

  // ---- proofs: a line ---------------------------------------------------

  function TokenPair(p: (string, string), graphic: char -> bool): (string, string) {
    (Token(p.0, graphic), Token(p.1, graphic))
  }

  function Tokens(ps: Pairs, graphic: char -> bool): (r: Pairs)
    ensures |r| == |ps|
    ensures forall i :: 0 <= i < |ps| ==> r[i] == TokenPair(ps[i], graphic)
  {
    if ps == [] then [] else [TokenPair(ps[0], graphic)] + Tokens(ps[1..], graphic)
  }

  lemma FindAllPair(p: (string, string), t: string, graphic: char -> bool)
    requires t == "" || IsSpace(t[0])
    ensures FindAll(PrintPair(p, graphic) + t) == [TokenPair(p, graphic)] + FindAll(t)
  {
    var k, v := Token(p.0, graphic), Token(p.1, graphic);
    var s := PrintPair(p, graphic) + t;
    assert s == k + "=" + (v + t);
    KeyLenToken(p.0, v + t, graphic);
    ValueLenToken(p.1, t, graphic);
    assert s[..|k|] == k;
    assert s[|k| + 1..] == v + t;
    assert (v + t)[..|v|] == v && (v + t)[|v|..] == t;
  }

  lemma FindAllSpace(t: string)
    ensures FindAll(" " + t) == FindAll(t)
  {
    assert (" " + t)[1..] == t;
  }

  /** The scanner finds exactly the printed tokens, whatever text the keys and values hold. */
  lemma {:induction false} FindAllPrinted(ps: Pairs, graphic: char -> bool)
    ensures FindAll(PrintLine(ps, graphic)) == Tokens(ps, graphic)
  {
    if ps == [] {
    } else if |ps| == 1 {
      FindAllPair(ps[0], "", graphic);
      assert PrintPair(ps[0], graphic) + "" == PrintLine(ps, graphic);
    } else {
      var rest := PrintLine(ps[1..], graphic);
      FindAllPrinted(ps[1..], graphic);
      FindAllSpace(rest);
      FindAllPair(ps[0], " " + rest, graphic);
      assert PrintLine(ps, graphic) == PrintPair(ps[0], graphic) + (" " + rest);
    }
  }

  /** `parse_line` of a printed line is the dict of the recovered pairs. */
  lemma ParsePrinted(ps: Pairs, graphic: char -> bool)
    ensures ParseLine(PrintLine(ps, graphic)) == ToRecord(Map(ps, Recovering(graphic)))
  {
    FindAllPrinted(ps, graphic);
    forall i | 0 <= i < |ps| ensures UnquotePair(TokenPair(ps[i], graphic)) == RecoverPair(ps[i], graphic) {
      UnquoteToken(ps[i].0, graphic);
      UnquoteToken(ps[i].1, graphic);
    }
    assert Map(Tokens(ps, graphic), UnquotePair) == Map(ps, Recovering(graphic));
  }

  /** The last value given for `k`. */
  function Lookup(ps: Pairs, k: string): Option<string> {
    if ps == [] then None
    else if ps[|ps| - 1].0 == k then Some(ps[|ps| - 1].1)
    else Lookup(ps[..|ps| - 1], k)
  }

  lemma LookupSnoc(ps: Pairs, kv: (string, string), k: string)
    ensures Lookup(ps + [kv], k) == if kv.0 == k then Some(kv.1) else Lookup(ps, k)
  {
    assert (ps + [kv])[..|ps|] == ps;
  }

  lemma LookupThree(a: (string, string), b: (string, string), c: (string, string), k: string)
    ensures Lookup([a, b, c], k)
         == if c.0 == k then Some(c.1) else if b.0 == k then Some(b.1) else if a.0 == k then Some(a.1) else None
  {
    LookupSnoc([a, b], c, k);
    LookupSnoc([a], b, k);
    LookupSnoc([], a, k);
    assert [a, b] + [c] == [a, b, c] && [a] + [b] == [a, b] && [] + [a] == [a];
  }

  lemma {:induction false} LookupAppend(a: Pairs, b: Pairs, k: string)
    ensures Lookup(a + b, k) == if Lookup(b, k).Some? then Lookup(b, k) else Lookup(a, k)
  {
    if b == [] {
      assert a + b == a;
    } else {
      assert (a + b)[..|a + b| - 1] == a + b[..|b| - 1];
      LookupAppend(a, b[..|b| - 1], k);
    }
  }

  ghost predicate SafeKeys(ps: Pairs, graphic: char -> bool) {
    forall i :: 0 <= i < |ps| ==> Recovered(ps[i].0, graphic) == ps[i].0
  }

  lemma RecordSnoc(ps: Pairs, kv: (string, string))
    ensures ToRecord(ps + [kv]) == ToRecord(ps)[kv.0 := kv.1]
  {
    assert (ps + [kv])[..|ps|] == ps;
  }

  lemma {:induction false} RecordLookup(ps: Pairs, k: string, graphic: char -> bool)
    requires SafeKeys(ps, graphic)
    ensures var r := ToRecord(Map(ps, Recovering(graphic)));
            && (k in r <==> Lookup(ps, k).Some?)
            && (k in r ==> r[k] == Recovered(Lookup(ps, k).value, graphic))
  {
    if ps == [] {
    } else {
      var init, last := ps[..|ps| - 1], ps[|ps| - 1];
      RecordLookup(init, k, graphic);
      assert Map(ps, Recovering(graphic)) == Map(init, Recovering(graphic)) + [RecoverPair(last, graphic)];
      RecordSnoc(Map(init, Recovering(graphic)), RecoverPair(last, graphic));
    }
  }

  /** Field by field: a key is in the parsed dict exactly when the line printed it, with its last value
      as recovered. Text inside a value never becomes a field. */
  lemma ParsedField(ps: Pairs, k: string, graphic: char -> bool)
    requires SafeKeys(ps, graphic)
    ensures var r := ParseLine(PrintLine(ps, graphic));
            && (k in r <==> Lookup(ps, k).Some?)
            && (k in r ==> r[k] == Recovered(Lookup(ps, k).value, graphic))
  {
    ParsePrinted(ps, graphic);
    RecordLookup(ps, k, graphic);
  }

  // ---- proofs: a file ---------------------------------------------------

  predicate NoBreaks(s: string) {
    forall i :: 0 <= i < |s| ==> !IsBreak(s[i])
  }

  lemma {:induction false} EscapeNoBreaks(v: string, graphic: char -> bool)
    ensures NoBreaks(Escape(v, graphic))
  {
    if v == "" {
    } else {
      EscapeNoBreaks(v[1..], graphic);
      assert NoBreaks(EscapeChar(v[0], graphic));
    }
  }

  lemma TokenNoBreaks(v: string, graphic: char -> bool)
    ensures NoBreaks(Token(v, graphic))
  {
    EscapeNoBreaks(v, graphic);
    if !NeedsQuote(v, graphic) {
      assert forall i :: 0 <= i < |v| ==> IsBare(v[i], graphic);
    }
  }

  lemma {:induction false} LineNoBreaks(ps: Pairs, graphic: char -> bool)
    ensures NoBreaks(PrintLine(ps, graphic))
    ensures ps != [] ==> NotBlank(PrintLine(ps, graphic))
  {
    if ps == [] {
    } else {
      TokenNoBreaks(ps[0].0, graphic);
      TokenNoBreaks(ps[0].1, graphic);
      LineNoBreaks(ps[1..], graphic);
      assert PrintLine(ps, graphic)[|Token(ps[0].0, graphic)|] == '=';
    }
  }

  lemma {:induction false} BreakAtNewline(l: string, t: string)
    requires NoBreaks(l)
    ensures BreakAt(l + "\n" + t) == |l|
  {
    if l == "" {
      assert l + "\n" + t == "\n" + t;
    } else {
      BreakAtNewline(l[1..], t);
      assert (l + "\n" + t)[1..] == l[1..] + "\n" + t;
      assert !IsBreak(l[0]);
    }
  }

  lemma SplitFirst(l: string, t: string)
    requires NoBreaks(l)
    ensures SplitLines(l + "\n" + t) == [l] + SplitLines(t)
  {
    var s := l + "\n" + t;
    BreakAtNewline(l, t);
    assert s[..|l|] == l && s[|l| + 1..] == t && s[|l|] == '\n';
  }

  lemma {:induction false} SplitPrinted(lines: seq<Pairs>, graphic: char -> bool)
    ensures SplitLines(PrintLog(lines, graphic)) == Map(lines, l => PrintLine(l, graphic))
  {
    if lines == [] {
    } else {
      SplitPrinted(lines[1..], graphic);
      LineNoBreaks(lines[0], graphic);
      SplitFirst(PrintLine(lines[0], graphic), PrintLog(lines[1..], graphic));
    }
  }

  lemma PrintedNotBlank(lines: seq<Pairs>, graphic: char -> bool)
    requires forall l :: l in lines ==> l != []
    ensures Filter(Map(lines, l => PrintLine(l, graphic)), NotBlank) == Map(lines, l => PrintLine(l, graphic))
  {
    var texts := Map(lines, l => PrintLine(l, graphic));
    forall s | s in texts ensures NotBlank(s) {
      var i :| 0 <= i < |texts| && texts[i] == s;
      assert lines[i] in lines;
      LineNoBreaks(lines[i], graphic);
    }
    FilterAll(texts, NotBlank);
  }

  /** `read_lines` of a printed log gives one dict per logged line, in order. */
  lemma ReadPrinted(lines: seq<Pairs>, graphic: char -> bool)
    requires forall l :: l in lines ==> l != []
    ensures ReadLines(PrintLog(lines, graphic)) == Map(lines, l => ParseLine(PrintLine(l, graphic)))
  {
    SplitPrinted(lines, graphic);
    PrintedNotBlank(lines, graphic);
  }
}
