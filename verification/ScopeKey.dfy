/**
 The text of a provider scope: `json.dumps(scope, separators=(",", ":"))` with its default
 ASCII escaping (RFC 8259, section 7). The Postgres store keeps this text in a UNIQUE column,
 so equality of keys has to mean equality of scopes.

 Python strings are sequences of code points, lone surrogates included; escaping works on
 UTF-16 units. The exact law is `KeysAgreeExactly`; for texts that hold no surrogate pair
 written as two code points it becomes plain equality, `KeysAreInjective`.
 */
module ScopeKey {
  import opened Common

  type CodePoint = c: int | 0 <= c < 0x11_0000
  type Unit = u: int | 0 <= u < 0x1_0000
  type PyText = seq<CodePoint>

  // ---------------------------------------------------------------- encoding

  function UnitsOf(c: CodePoint): seq<Unit> {
    if c < 0x1_0000 then [c]
    else [0xD800 + (c - 0x1_0000) / 0x400, 0xDC00 + (c - 0x1_0000) % 0x400]
  }

  function Utf16(text: PyText): seq<Unit> {
    if text == [] then [] else UnitsOf(text[0]) + Utf16(text[1..])
  }

  function HexDigit(n: int): char
    requires 0 <= n < 16
  {
    if n < 10 then '0' + n as char else 'a' + (n - 10) as char
  }

  function EscapedUnit(u: Unit): string {
    if u == '\"' as int then "\\\""
    else if u == '\\' as int then "\\\\"
    else if u == '\n' as int then "\\n"
    else if u == '\r' as int then "\\r"
    else if u == '\t' as int then "\\t"
    else if u == 12 then "\\f"
    else if u == 8 then "\\b"
    else if 0x20 <= u <= 0x7E then [u as char]
    else ['\\', 'u', HexDigit(u / 0x1000), HexDigit(u / 0x100 % 16), HexDigit(u / 0x10 % 16), HexDigit(u % 16)]
  }

  function Escaped(units: seq<Unit>): string {
    if units == [] then "" else EscapedUnit(units[0]) + Escaped(units[1..])
  }

  function Quoted(text: PyText): string {
    "\"" + Escaped(Utf16(text)) + "\""
  }

  /** The members of a JSON array from one position on, closing bracket included. */
  function Members(items: seq<PyText>): string {
    if items == [] then "]"
    else Quoted(items[0]) + (if |items| == 1 then "]" else "," + Members(items[1..]))
  }

  function JsonArray(items: seq<PyText>): string {
    "[" + Members(items)
  }

  // ------------------------------------------------------------ unit escapes

  /** No escape opens with the closing quote. */
  lemma EscapeOpening(u: Unit)
    ensures |EscapedUnit(u)| in {1, 2, 6} && EscapedUnit(u)[0] != '\"'
    ensures |EscapedUnit(u)| == 1 <==> EscapedUnit(u)[0] != '\\'
    ensures |EscapedUnit(u)| == 6 <==> |EscapedUnit(u)| > 1 && EscapedUnit(u)[1] == 'u'
  {
  }

  lemma HexSplit(u: Unit)
    ensures 0 <= u / 0x1000 < 16
    ensures u == u / 0x1000 * 0x1000 + u / 0x100 % 16 * 0x100 + u / 0x10 % 16 * 0x10 + u % 16
  {
  }

  lemma Regroup(e: string, r: string, p: string)
    requires |e| > 0
    ensures (e + r) + "\"" + p == e + (r + "\"" + p) && ((e + r) + "\"" + p)[0] == e[0]
  {
  }

  /** What an escaped text and its closing quote open with. */
  lemma EscapedOpening(s: seq<Unit>, p: string)
    ensures (Escaped(s) + "\"" + p)[0] == '\"' <==> s == []
    ensures s == [] ==> Escaped(s) + "\"" + p == "\"" + p
    ensures s != [] ==> Escaped(s) + "\"" + p == EscapedUnit(s[0]) + (Escaped(s[1..]) + "\"" + p)
  {
    if s == [] {
      assert "" + "\"" + p == "\"" + p;
    } else {
      EscapeOpening(s[0]);
      Regroup(EscapedUnit(s[0]), Escaped(s[1..]), p);
    }
  }

  lemma Unquoted(a: PyText, p: string)
    ensures Quoted(a) + p != "" && (Quoted(a) + p)[1..] == Escaped(Utf16(a)) + "\"" + p
  {
    assert Quoted(a) == "\"" + (Escaped(Utf16(a)) + "\"");
    assert Quoted(a) + p == "\"" + (Escaped(Utf16(a)) + "\"" + p);
  }

  lemma MembersOpening(items: seq<PyText>)
    ensures |Members(items)| > 0 && (Members(items)[0] == ']' <==> items == [])
  {
  }

  // ----------------------------------------------------------- reading it back

  function HexValue(c: char): int {
    if '0' <= c <= '9' then c as int - 0x30 else if 'a' <= c <= 'f' then c as int - 0x61 + 10 else -1
  }

  function ReadHex(s: string): Option<(Unit, string)> {
    if |s| < 4 || HexValue(s[0]) < 0 || HexValue(s[1]) < 0 || HexValue(s[2]) < 0 || HexValue(s[3]) < 0 then None
    else Some((HexValue(s[0]) * 0x1000 + HexValue(s[1]) * 0x100 + HexValue(s[2]) * 0x10 + HexValue(s[3]), s[4..]))
  }

  /** One character or escape of a JSON string, as RFC 8259 reads it, and the text after it. */
  function ReadUnit(s: string): (r: Option<(Unit, string)>)
    ensures r.Some? ==> |r.value.1| < |s|
  {
    if s == "" || s[0] as int < 0x20 || s[0] as int > 0x7F || s[0] == '\"' then None
    else if s[0] != '\\' then Some((s[0] as int, s[1..]))
    else if |s| < 2 then None
    else match s[1]
      case '\"' => Some((0x22, s[2..]))
      case '\\' => Some((0x5C, s[2..]))
      case '/' => Some((0x2F, s[2..]))
      case 'b' => Some((0x08, s[2..]))
      case 'f' => Some((0x0C, s[2..]))
      case 'n' => Some((0x0A, s[2..]))
      case 'r' => Some((0x0D, s[2..]))
      case 't' => Some((0x09, s[2..]))
      case 'u' => ReadHex(s[2..])
      case _ => None
  }

  /** The units up to the closing quote, and the text after it. */
  function ReadText(s: string): (r: Option<(seq<Unit>, string)>)
    ensures r.Some? ==> |r.value.1| < |s|
    decreases |s|
  {
    if s == "" then None
    else if s[0] == '\"' then Some(([], s[1..]))
    else
      var u := ReadUnit(s);
      if u.None? then None
      else
        var rest := ReadText(u.value.1);
        if rest.None? then None else Some(([u.value.0] + rest.value.0, rest.value.1))
  }

  /** One or more strings separated by commas, and the closing bracket at the end. */
  function ReadMembers(s: string): Option<seq<seq<Unit>>>
    decreases |s|
  {
    if s == "" || s[0] != '\"' then None
    else
      var text := ReadText(s[1..]);
      if text.None? || text.value.1 == "" then None
      else if text.value.1 == "]" then Some([text.value.0])
      else if text.value.1[0] != ',' then None
      else
        var rest := ReadMembers(text.value.1[1..]);
        if rest.None? then None else Some([text.value.0] + rest.value)
  }

  function ReadArray(s: string): Option<seq<seq<Unit>>> {
    if s == "" || s[0] != '[' then None else if s == "[]" then Some([]) else ReadMembers(s[1..])
  }

  lemma HexReadsBack(n: int)
    requires 0 <= n < 16
    ensures HexValue(HexDigit(n)) == n
  {
  }

  lemma HexReadsBackAll(u: Unit, p: string)
    ensures var hex := [HexDigit(u / 0x1000), HexDigit(u / 0x100 % 16), HexDigit(u / 0x10 % 16), HexDigit(u % 16)];
      ReadHex(hex + p) == Some((u, p))
  {
    var hex := [HexDigit(u / 0x1000), HexDigit(u / 0x100 % 16), HexDigit(u / 0x10 % 16), HexDigit(u % 16)];
    HexReadsBack(u / 0x1000);
    HexReadsBack(u / 0x100 % 16);
    HexReadsBack(u / 0x10 % 16);
    HexReadsBack(u % 16);
    HexSplit(u);
    assert (hex + p)[..4] == hex && (hex + p)[4..] == p;
  }

  lemma UnitReadsBack(u: Unit, p: string)
    ensures ReadUnit(EscapedUnit(u) + p) == Some((u, p))
  {
    var e := EscapedUnit(u);
    EscapeOpening(u);
    assert (e + p)[|e|..] == p && (e + p)[0] == e[0];
    if |e| > 1 { assert (e + p)[1] == e[1] && (e + p)[2..] == e[2..] + p; }
    if |e| == 6 {
      HexReadsBackAll(u, p);
      assert e[2..] == [HexDigit(u / 0x1000), HexDigit(u / 0x100 % 16), HexDigit(u / 0x10 % 16), HexDigit(u % 16)];
    }
  }

  lemma {:induction false} TextReadsBack(units: seq<Unit>, p: string)
    ensures ReadText(Escaped(units) + "\"" + p) == Some((units, p))
  {
    EscapedOpening(units, p);
    if units != [] {
      UnitReadsBack(units[0], Escaped(units[1..]) + "\"" + p);
      TextReadsBack(units[1..], p);
      assert units == [units[0]] + units[1..];
    }
  }

  function UnitsOfAll(items: seq<PyText>): seq<seq<Unit>> {
    seq(|items|, i requires 0 <= i < |items| => Utf16(items[i]))
  }

  lemma LastReadsBack(a: PyText)
    ensures ReadMembers(Quoted(a) + "]") == Some([Utf16(a)])
  {
    Unquoted(a, "]");
    TextReadsBack(Utf16(a), "]");
    assert (Quoted(a) + "]")[0] == '\"';
  }

  lemma NextReadsBack(a: PyText, q: string, rest: seq<seq<Unit>>)
    requires ReadMembers(q) == Some(rest)
    ensures ReadMembers(Quoted(a) + ("," + q)) == Some([Utf16(a)] + rest)
  {
    var p := "," + q;
    Unquoted(a, p);
    TextReadsBack(Utf16(a), p);
    assert (Quoted(a) + p)[0] == '\"' && p[0] == ',' && p[1..] == q;
  }

  lemma {:induction false} MembersReadBack(items: seq<PyText>)
    requires items != []
    ensures ReadMembers(Members(items)) == Some(UnitsOfAll(items))
  {
    if |items| == 1 {
      LastReadsBack(items[0]);
      assert UnitsOfAll(items) == [Utf16(items[0])];
    } else {
      MembersReadBack(items[1..]);
      NextReadsBack(items[0], Members(items[1..]), UnitsOfAll(items[1..]));
      assert UnitsOfAll(items) == [Utf16(items[0])] + UnitsOfAll(items[1..]);
    }
  }

  /** A JSON reader gets the scope back from its key, unit by unit. */
  lemma KeysReadBack(items: seq<PyText>)
    ensures ReadArray(JsonArray(items)) == Some(UnitsOfAll(items))
  {
    if items == [] {
      assert JsonArray(items) == "[]" && UnitsOfAll(items) == [];
    } else {
      MembersReadBack(items);
      MembersOpening(items);
      assert JsonArray(items)[1..] == Members(items);
      assert Members(items) != "]";
    }
  }

  // ------------------------------------------------------------ key equality

  ghost predicate SameUnits(a: seq<PyText>, b: seq<PyText>) {
    |a| == |b| && forall i :: 0 <= i < |a| ==> Utf16(a[i]) == Utf16(b[i])
  }

  lemma {:induction false} MembersDetermined(a: seq<PyText>, b: seq<PyText>)
    requires SameUnits(a, b)
    ensures Members(a) == Members(b)
  {
    if a != [] {
      assert SameUnits(a[1..], b[1..]);
      MembersDetermined(a[1..], b[1..]);
    }
  }

  /** Two arrays print the same text exactly when their members have the same UTF-16 units. */
  lemma KeysAgreeExactly(a: seq<PyText>, b: seq<PyText>)
    ensures JsonArray(a) == JsonArray(b) <==> SameUnits(a, b)
  {
    KeysReadBack(a);
    KeysReadBack(b);
    if JsonArray(a) == JsonArray(b) {
      var units := UnitsOfAll(a);
      assert units == UnitsOfAll(b);
      forall i | 0 <= i < |a| ensures Utf16(a[i]) == Utf16(b[i]) { assert units[i] == Utf16(a[i]); }
    }
    if SameUnits(a, b) { MembersDetermined(a, b); }
  }

  // --------------------------------------------------------------- surrogates

  predicate High(u: int) { 0xD800 <= u < 0xDC00 }

  predicate Low(u: int) { 0xDC00 <= u < 0xE000 }

  /** No high surrogate code point stands directly before a low one. */
  ghost predicate Unpaired(text: PyText) {
    forall i :: 0 <= i < |text| - 1 ==> !(High(text[i]) && Low(text[i + 1]))
  }

  lemma AstralUnits(c: CodePoint)
    requires c >= 0x1_0000
    ensures |UnitsOf(c)| == 2 && High(UnitsOf(c)[0]) && Low(UnitsOf(c)[1])
    ensures c - 0x1_0000 == (UnitsOf(c)[0] as int - 0xD800) * 0x400 + (UnitsOf(c)[1] as int - 0xDC00)
  {
  }

  /** An unpaired text that opens with a high unit followed by a low one opens with an astral code point. */
  lemma OpeningPair(text: PyText)
    requires Unpaired(text) && |Utf16(text)| > 1 && High(Utf16(text)[0]) && Low(Utf16(text)[1])
    ensures text[0] >= 0x1_0000
  {
  }

  lemma {:induction false} Utf16Injective(s: PyText, t: PyText)
    requires Unpaired(s) && Unpaired(t) && Utf16(s) == Utf16(t)
    ensures s == t
  {
    if s != [] && t != [] {
      if s[0] >= 0x1_0000 { AstralUnits(s[0]); OpeningPair(t); AstralUnits(t[0]); }
      if t[0] >= 0x1_0000 { AstralUnits(t[0]); OpeningPair(s); AstralUnits(s[0]); }
      assert UnitsOf(s[0])[0] == Utf16(s)[0] == Utf16(t)[0] == UnitsOf(t[0])[0];
      if s[0] >= 0x1_0000 {
        assert UnitsOf(s[0])[1] == Utf16(s)[1] == Utf16(t)[1] == UnitsOf(t[0])[1];
      }
      assert s[0] == t[0];
      var n := |UnitsOf(s[0])|;
      assert Utf16(s[1..]) == Utf16(s)[n..] == Utf16(t)[n..] == Utf16(t[1..]);
      assert Unpaired(s[1..]) by {
        forall i | 0 <= i < |s| - 2 ensures !(High(s[1..][i]) && Low(s[1..][i + 1])) {
          assert s[1..][i + 1] == s[i + 2];
        }
      }
      assert Unpaired(t[1..]) by {
        forall i | 0 <= i < |t| - 2 ensures !(High(t[1..][i]) && Low(t[1..][i + 1])) {
          assert t[1..][i + 1] == t[i + 2];
        }
      }
      Utf16Injective(s[1..], t[1..]);
      assert s == [s[0]] + s[1..] && t == [t[0]] + t[1..];
    }
  }

  /** Over unpaired texts the printed array determines the scope. */
  lemma KeysAreInjective(a: seq<PyText>, b: seq<PyText>)
    requires forall i :: 0 <= i < |a| ==> Unpaired(a[i])
    requires forall i :: 0 <= i < |b| ==> Unpaired(b[i])
    ensures JsonArray(a) == JsonArray(b) <==> a == b
  {
    KeysAgreeExactly(a, b);
    if SameUnits(a, b) {
      forall i | 0 <= i < |a| ensures a[i] == b[i] { Utf16Injective(a[i], b[i]); }
    }
  }

  /** The condition is needed: a code point and its two surrogates print the same key. */
  lemma PairedTextsCollide()
    ensures JsonArray([[0x1_0000]]) == JsonArray([[0xD800, 0xDC00]]) && [[0x1_0000]] != [[0xD800, 0xDC00]]
  {
  }

  // --------------------------------------------------- texts without surrogates

  function CodePoints(text: string): (points: PyText)
    ensures |points| == |text|
  {
    seq(|text|, i requires 0 <= i < |text| => text[i] as int)
  }

  function Key(scope: seq<string>): string {
    JsonArray(seq(|scope|, i requires 0 <= i < |scope| => CodePoints(scope[i])))
  }

  /** For texts of Unicode scalar values, the UNIQUE column compares scopes themselves. */
  lemma KeyEquality(a: seq<string>, b: seq<string>)
    ensures Key(a) == Key(b) <==> a == b
  {
    var p := seq(|a|, i requires 0 <= i < |a| => CodePoints(a[i]));
    var q := seq(|b|, i requires 0 <= i < |b| => CodePoints(b[i]));
    KeysAreInjective(p, q);
    if p == q {
      forall i | 0 <= i < |a| ensures a[i] == b[i] {
        assert p[i] == q[i];
        forall k | 0 <= k < |a[i]| ensures a[i][k] == b[i][k] { assert p[i][k] == q[i][k]; }
      }
    }
  }
}
