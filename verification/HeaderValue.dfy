/** What a receiver makes of a header value: the blanks around it are not part of it
    (section 3.2.4 of RFC 7230), and section 3.1.3.3 of the CloudEvents HTTP Protocol
    Binding 1.0.2 takes a quoted string out of its quotes and decodes percent escapes
    once. Strings are Go's: sequences of bytes. */
module HeaderValue {
  import opened Prelude

  predicate IsBlank(c: char) {
    c == ' ' || c == '\t'
  }

  /** httpguts.ValidHeaderFieldValue: a client sends no control character but a tab. */
  predicate Sendable(v: string) {
    forall i | 0 <= i < |v| :: (' ' <= v[i] && v[i] != '\U{007F}') || v[i] == '\t'
  }

  predicate OuterBlank(v: string) {
    v != "" && (IsBlank(v[0]) || IsBlank(v[|v| - 1]))
  }

  function Trim(v: string): (t: string)
    ensures |t| <= |v|
    ensures t == v <==> !OuterBlank(v)
  {
    if v != "" && IsBlank(v[0]) then Trim(v[1..])
    else if v != "" && IsBlank(v[|v| - 1]) then Trim(v[..|v| - 1])
    else v
  }

  /** The inside of a quoted string, with its quoted pairs resolved; None if a quote in
      it is not escaped or a pair is not complete. */
  function Unescape(s: string): (u: Option<string>)
    ensures u.Some? ==> |u.value| <= |s|
  {
    if s == "" then Some("")
    else if s[0] == '"' || s == "\\" then None
    else
      var n := if s[0] == '\\' then 2 else 1;
      match Unescape(s[n..])
      case None => None
      case Some(rest) => Some([s[n - 1]] + rest)
  }

  predicate Quoted(v: string) {
    |v| >= 2 && v[0] == '"' && v[|v| - 1] == '"' && Unescape(v[1..|v| - 1]).Some?
  }

  function Unquote(v: string): (u: string)
    ensures |u| <= |v|
    ensures u == v <==> !Quoted(v)
  {
    if Quoted(v) then Unescape(v[1..|v| - 1]).value else v
  }

  function HexDigit(c: char): (d: Option<int>)
    ensures d.Some? ==> 0 <= d.value < 16
  {
    if '0' <= c <= '9' then Some(c as int - '0' as int)
    else if 'a' <= c <= 'f' then Some(c as int - 'a' as int + 10)
    else if 'A' <= c <= 'F' then Some(c as int - 'A' as int + 10)
    else None
  }

  predicate EscapeAt(v: string, i: nat) {
    i + 2 < |v| && v[i] == '%' && HexDigit(v[i + 1]).Some? && HexDigit(v[i + 2]).Some?
  }

  predicate HasEscape(v: string) {
    exists i: nat | i < |v| :: EscapeAt(v, i)
  }

  function PercentDecode(v: string): (d: string)
    ensures |d| <= |v|
  {
    if v == "" then ""
    else if EscapeAt(v, 0)
    then [(HexDigit(v[1]).value * 16 + HexDigit(v[2]).value) as char] + PercentDecode(v[3..])
    else [v[0]] + PercentDecode(v[1..])
  }

  /** Decoding shortens a value that has an escape and leaves every other one alone. */
  lemma {:induction false} DecodeShortens(v: string)
    ensures if HasEscape(v) then |PercentDecode(v)| < |v| else PercentDecode(v) == v
  {
    if v != "" && !EscapeAt(v, 0) {
      DecodeShortens(v[1..]);
      if HasEscape(v) {
        var i: nat :| i < |v| && EscapeAt(v, i);
        assert EscapeAt(v[1..], i - 1);
      } else if HasEscape(v[1..]) {
        var i: nat :| i < |v[1..]| && EscapeAt(v[1..], i);
        assert EscapeAt(v, i + 1);
      }
    }
  }

  function ReadValue(v: string): string {
    PercentDecode(Unquote(Trim(v)))
  }

  /** A value that means itself: no blank around it, no quoted string, no escape. */
  predicate Plain(v: string) {
    !OuterBlank(v) && !Quoted(v) && !HasEscape(v)
  }

  /** A value is read back as it was sent exactly if it means itself: whatever else the
      receiver does to it makes it shorter. */
  lemma ReadsBack(v: string)
    ensures ReadValue(v) == v <==> Plain(v)
  {
    DecodeShortens(Unquote(Trim(v)));
  }

  // ---------------------------------------------------------------------------
  // What a sender has to write instead
  // ---------------------------------------------------------------------------

  lemma {:induction false} TrimMeans(v: string) returns (a: string, b: string)
    ensures v == a + Trim(v) + b
    ensures (forall i | 0 <= i < |a| :: IsBlank(a[i])) && forall i | 0 <= i < |b| :: IsBlank(b[i])
  {
    a, b := "", "";
    if v != "" && IsBlank(v[0]) {
      a, b := TrimMeans(v[1..]);
      a := [v[0]] + a;
    } else if v != "" && IsBlank(v[|v| - 1]) {
      a, b := TrimMeans(v[..|v| - 1]);
      b := b + [v[|v| - 1]];
    }
  }

  /** The inside of a quoted string that stands for this text. */
  function Pairs(s: string): string {
    if s == "" then "" else (if s[0] == '"' || s[0] == '\\' then ['\\', s[0]] else [s[0]]) + Pairs(s[1..])
  }

  lemma {:induction false} PairsUnescape(s: string)
    ensures Unescape(Pairs(s)) == Some(s)
  {
    if s != "" {
      PairsUnescape(s[1..]);
      var p := Pairs(s);
      assert s == [s[0]] + s[1..];
      if s[0] == '"' || s[0] == '\\' {
        assert p == ['\\', s[0]] + Pairs(s[1..]) && |p| >= 2;
        assert p[0] == '\\' && p[1] == s[0] && p[2..] == Pairs(s[1..]);
      } else {
        assert p[0] == s[0] && p[1..] == Pairs(s[1..]);
      }
    }
  }

  lemma QuotedReads(s: string)
    ensures Unquote(['"'] + Pairs(s) + ['"']) == s
  {
    var v := ['"'] + Pairs(s) + ['"'];
    assert v[1..|v| - 1] == Pairs(s);
    PairsUnescape(s);
  }

  function Digit(d: int): (c: char)
    requires 0 <= d < 16
    ensures HexDigit(c) == Some(d)
  {
    if d < 10 then ('0' as int + d) as char else ('A' as int + d - 10) as char
  }

  /** Section 3.1.3.2: what is not printable ASCII, and the space, the quote and the percent
      sign, is written as a percent escape. */
  function EncodeChar(c: char): string
    requires c < '\U{0100}'
  {
    if '!' <= c <= '~' && c != '"' && c != '%' then [c] else ['%', Digit(c as int / 16), Digit(c as int % 16)]
  }

  predicate Bytes(v: string) {
    forall i | 0 <= i < |v| :: v[i] < '\U{0100}'
  }

  function PercentEncode(v: string): string
    requires Bytes(v)
  {
    if v == "" then "" else EncodeChar(v[0]) + PercentEncode(v[1..])
  }

  lemma DecodeFirst(c: char, rest: string)
    requires c < '\U{0100}'
    ensures PercentDecode(EncodeChar(c) + rest) == [c] + PercentDecode(rest)
  {
    var v := EncodeChar(c) + rest;
    if |EncodeChar(c)| == 1 {
      assert v[1..] == rest;
    } else {
      assert EscapeAt(v, 0) && v[3..] == rest;
      assert c as int / 16 * 16 + c as int % 16 == c as int;
    }
  }

  /** What an encoded value is made of. */
  predicate Tokens(v: string) {
    forall i | 0 <= i < |v| :: '!' <= v[i] <= '~' && v[i] != '"'
  }

  lemma {:induction false} EncodedDecodes(v: string)
    requires Bytes(v)
    ensures PercentDecode(PercentEncode(v)) == v && Tokens(PercentEncode(v))
  {
    if v != "" {
      EncodedDecodes(v[1..]);
      DecodeFirst(v[0], PercentEncode(v[1..]));
      assert Tokens(EncodeChar(v[0]));
      assert v == [v[0]] + v[1..];
    }
  }

  /** Encoded so, every value could be sent and would be read back. */
  lemma EncodedReadsBack(v: string)
    requires Bytes(v)
    ensures Sendable(PercentEncode(v)) && ReadValue(PercentEncode(v)) == v
  {
    EncodedDecodes(v);
    assert !OuterBlank(PercentEncode(v)) && !Quoted(PercentEncode(v));
  }
}
