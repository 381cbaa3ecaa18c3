// Reading a JSON object whose values are strings (sections 2, 4 and 7 of RFC 8259), and when a printed
// object is read back.
module JsonReader {
  import opened Wrappers

  datatype Token = Token(value: string, rest: string)

  datatype Field = Field(key: string, value: string)

  // ---------------------------------------------------------------- the reader

  function HexDigit(c: char): Option<nat> {
    if '0' <= c <= '9' then Some(c as int - '0' as int)
    else if 'a' <= c <= 'f' then Some(c as int - 'a' as int + 10)
    else if 'A' <= c <= 'F' then Some(c as int - 'A' as int + 10)
    else None
  }

  function HexValue(s: string): Option<nat> {
    if |s| == 0 then Some(0)
    else
      var high, digit := HexValue(s[..|s| - 1]), HexDigit(s[|s| - 1]);
      if high.None? || digit.None? then None else Some(16 * high.value + digit.value)
  }

  /** The character of a code unit; half of a surrogate pair is shown as U+FFFD. */
  function Unit(n: nat): char {
    if n < 0xD800 then n as char else if 0xDFFF < n <= 0xFFFF then n as char else '\U{FFFD}'
  }

  /** The escapes of two characters. */
  function Escaped(c: char): Option<char> {
    match c
    case '\"' => Some('\"')
    case '\\' => Some('\\')
    case '/' => Some('/')
    case 'b' => Some(8 as char)
    case 'f' => Some(12 as char)
    case 'n' => Some('\n')
    case 'r' => Some('\r')
    case 't' => Some('\t')
    case _ => None
  }

  function Prepend(c: char, t: Option<Token>): Option<Token> {
    if t.Some? then Some(Token([c] + t.value.value, t.value.rest)) else None
  }

  /** A string after its opening quote. */
  function ReadString(s: string): (t: Option<Token>)
    ensures t.Some? ==> |t.value.value| + 1 + |t.value.rest| <= |s|
    decreases |s|
  {
    if |s| == 0 || s[0] < ' ' then None
    else if s[0] == '\"' then Some(Token("", s[1..]))
    else if s[0] != '\\' then Prepend(s[0], ReadString(s[1..]))
    else if |s| >= 2 && Escaped(s[1]).Some? then Prepend(Escaped(s[1]).value, ReadString(s[2..]))
    else if |s| >= 6 && s[1] == 'u' && HexValue(s[2..6]).Some? then
      Prepend(Unit(HexValue(s[2..6]).value), ReadString(s[6..]))
    else None
  }

  predicate IsSpace(c: char) { c == ' ' || c == '\t' || c == '\n' || c == '\r' }

  function Skip(s: string): (r: string)
    ensures |r| <= |s|
  {
    if |s| > 0 && IsSpace(s[0]) then Skip(s[1..]) else s
  }

  function Expect(s: string, c: char): (r: Option<string>)
    ensures r.Some? ==> |r.value| < |s|
  {
    var t := Skip(s);
    if |t| > 0 && t[0] == c then Some(t[1..]) else None
  }

  function ReadQuoted(s: string): (t: Option<Token>)
    ensures t.Some? ==> |t.value.value| + 2 + |t.value.rest| <= |s|
  {
    var q := Expect(s, '\"');
    if q.None? then None else ReadString(q.value)
  }

  datatype Member = Member(field: Field, rest: string)

  function ReadMember(s: string): (m: Option<Member>)
    ensures m.Some? ==> |m.value.field.value| + 5 + |m.value.rest| <= |s|
  {
    var key := ReadQuoted(s);
    if key.None? then None
    else
      var colon := Expect(key.value.rest, ':');
      if colon.None? then None
      else
        var value := ReadQuoted(colon.value);
        if value.None? then None else Some(Member(Field(key.value.value, value.value.value), value.value.rest))
  }

  /** The members up to the closing brace, after which nothing but white space may follow. */
  function ReadMembers(s: string): (fs: Option<seq<Field>>)
    ensures fs.Some? ==> |fs.value| > 0
    decreases |s|
  {
    var m := ReadMember(s);
    if m.None? then None
    else
      var comma, brace := Expect(m.value.rest, ','), Expect(m.value.rest, '}');
      if comma.Some? then
        var more := ReadMembers(comma.value);
        if more.None? then None else Some([m.value.field] + more.value)
      else if brace.Some? && Skip(brace.value) == "" then Some([m.value.field])
      else None
  }

  function ReadObject(s: string): Option<seq<Field>> {
    var open := Expect(s, '{');
    if open.None? then None
    else
      var empty := Expect(open.value, '}');
      if empty.Some? then (if Skip(empty.value) == "" then Some([]) else None) else ReadMembers(open.value)
  }

  /** A field of the object: of fields with the same key the last one counts, and a missing one prints as "undefined". */
  function Get(fs: seq<Field>, key: string): string {
    if |fs| == 0 then "undefined"
    else if fs[|fs| - 1].key == key then fs[|fs| - 1].value
    else Get(fs[..|fs| - 1], key)
  }

  // ---------------------------------------------------------------- printing

  /** Needs no escape. */
  predicate Clean(s: string) {
    forall i :: 0 <= i < |s| ==> CleanChar(s[i])
  }

  function Quoted(s: string): string { "\"" + s + "\"" }

  function PrintField(f: Field): string { Quoted(f.key) + ": " + Quoted(f.value) }

  function PrintFields(fs: seq<Field>): string
    requires |fs| > 0
  {
    if |fs| == 1 then PrintField(fs[0]) + "}" else PrintField(fs[0]) + ", " + PrintFields(fs[1..])
  }

  /** An object as the server writes it, with nothing escaped. */
  function Print(fs: seq<Field>): string
    requires |fs| > 0
  {
    "{" + PrintFields(fs)
  }

  // ---------------------------------------------------------------- what escaping would give

  function Hex(n: nat): char
    requires n < 16
  {
    if n < 10 then (n + '0' as int) as char else (n - 10 + 'a' as int) as char
  }

  /** A character as section 7 wants it. */
  function Escape(c: char): string {
    if c == '\"' then "\\\""
    else if c == '\\' then "\\\\"
    else if c == '\n' then "\\n"
    else if c == '\r' then "\\r"
    else if c == '\t' then "\\t"
    else if c as int == 8 then "\\b"
    else if c as int == 12 then "\\f"
    else if c < ' ' then "\\u00" + [Hex(c as int / 16), Hex(c as int % 16)]
    else [c]
  }

  function EscapeAll(x: string): string {
    if |x| == 0 then "" else Escape(x[0]) + EscapeAll(x[1..])
  }

  lemma HexIsRead(n: nat)
    requires n < 16
    ensures HexDigit(Hex(n)) == Some(n)
  {
  }

  lemma UnitIsRead(a: char, b: char, hi: nat, lo: nat)
    requires HexDigit(a) == Some(hi) && HexDigit(b) == Some(lo)
    ensures HexValue(['0', '0', a, b]) == Some(16 * hi + lo)
  {
    var s := ['0', '0', a, b];
    assert s[..3] == ['0', '0', a] && s[..3][..2] == ['0', '0'] && ['0', '0'][..1] == ['0'] && ['0'][..0] == [];
    assert HexValue(['0']) == Some(0) && HexValue(['0', '0']) == Some(0) && HexValue(['0', '0', a]) == Some(hi);
  }

  lemma TwoCharsRead(c: char, s: string)
    requires Escaped(c).Some?
    ensures ReadString(['\\', c] + s) == Prepend(Escaped(c).value, ReadString(s))
  {
    assert (['\\', c] + s)[2..] == s;
  }

  lemma SixCharsRead(hex: string, s: string)
    requires |hex| == 4 && HexValue(hex).Some?
    ensures ReadString(['\\', 'u'] + hex + s) == Prepend(Unit(HexValue(hex).value), ReadString(s))
  {
    var t := ['\\', 'u'] + hex + s;
    assert t[2..6] == hex && t[6..] == s;
  }

  lemma EscapeIsRead(c: char, s: string)
    ensures ReadString(Escape(c) + s) == Prepend(c, ReadString(s))
  {
    if CleanChar(c) {
      OneCharRead(c, s);
    } else if |Escape(c)| == 2 {
      TwoCharsRead(Escape(c)[1], s);
      assert Escape(c) == ['\\', Escape(c)[1]];
    } else {
      var hi, lo := c as int / 16, c as int % 16;
      HexIsRead(hi);
      HexIsRead(lo);
      UnitIsRead(Hex(hi), Hex(lo), hi, lo);
      SixCharsRead(['0', '0', Hex(hi), Hex(lo)], s);
      assert Escape(c) == ['\\', 'u'] + ['0', '0', Hex(hi), Hex(lo)];
    }
  }

  /** Every text would be read back if it were escaped. */
  lemma {:induction false} EscapedIsRead(x: string, rest: string)
    ensures ReadString(EscapeAll(x) + ("\"" + rest)) == Some(Token(x, rest))
  {
    var closing := "\"" + rest;
    if |x| == 0 {
      QuoteEnds(rest);
      assert EscapeAll(x) + closing == closing;
    } else {
      EscapedIsRead(x[1..], rest);
      EscapeIsRead(x[0], EscapeAll(x[1..]) + closing);
      Associative(Escape(x[0]), EscapeAll(x[1..]), closing);
      assert [x[0]] + x[1..] == x;
    }
  }

  lemma Associative(x: string, y: string, z: string)
    ensures (x + y) + z == x + (y + z)
  {
  }

  // ---------------------------------------------------------------- clean strings are read back

  predicate CleanChar(c: char) { ' ' <= c && c != '\"' && c != '\\' }

  lemma OneCharRead(c: char, s: string)
    requires CleanChar(c)
    ensures ReadString([c] + s) == Prepend(c, ReadString(s))
  {
    assert ([c] + s)[1..] == s;
  }

  lemma QuoteEnds(rest: string)
    ensures ReadString("\"" + rest) == Some(Token("", rest))
  {
    assert ("\"" + rest)[1..] == rest;
  }

  lemma {:induction false} CleanIsRead(x: string, rest: string)
    requires Clean(x)
    ensures ReadString(x + ("\"" + rest)) == Some(Token(x, rest))
  {
    var closing := "\"" + rest;
    if |x| == 0 {
      QuoteEnds(rest);
      assert x + closing == closing;
    } else {
      CleanIsRead(x[1..], rest);
      OneCharRead(x[0], x[1..] + closing);
      assert x + closing == [x[0]] + (x[1..] + closing) && [x[0]] + x[1..] == x;
    }
  }

  /** A value as long as what was read had nothing escaped. */
  lemma {:induction false} FullLengthIsClean(s: string)
    requires ReadString(s).Some?
    requires var t := ReadString(s).value; |t.value| + 1 + |t.rest| == |s|
    ensures Clean(ReadString(s).value.value) && ReadString(s).value.value <= s
    decreases |s|
  {
    if s[0] != '\"' && s[0] != '\\' {
      FullLengthIsClean(s[1..]);
      assert [s[0]] + s[1..] == s;
    }
  }

  lemma ExpectNow(c: char, rest: string)
    requires !IsSpace(c)
    ensures Expect([c] + rest, c) == Some(rest)
    ensures Expect(" " + ([c] + rest), c) == Some(rest)
  {
    assert (" " + ([c] + rest))[1..] == [c] + rest;
  }

  lemma ExpectOther(c: char, d: char, rest: string)
    requires !IsSpace(c) && c != d
    ensures Expect([c] + rest, d) == None
  {
  }

  lemma AfterQuote(s: string)
    ensures ReadQuoted(['\"'] + s) == ReadString(s) && ReadQuoted(" " + (['\"'] + s)) == ReadString(s)
  {
    ExpectNow('\"', s);
  }

  lemma QuotedSplit(x: string, rest: string)
    ensures Quoted(x) + rest == ['\"'] + (x + ("\"" + rest))
  {
  }

  lemma QuotedIsRead(x: string, rest: string)
    requires Clean(x)
    ensures ReadQuoted(Quoted(x) + rest) == Some(Token(x, rest))
    ensures ReadQuoted(" " + (Quoted(x) + rest)) == Some(Token(x, rest))
  {
    CleanIsRead(x, rest);
    AfterQuote(x + ("\"" + rest));
    QuotedSplit(x, rest);
  }

  lemma MemberIsRead(f: Field, rest: string)
    requires Clean(f.key) && Clean(f.value)
    ensures ReadMember(PrintField(f) + rest) == Some(Member(f, rest))
    ensures ReadMember(" " + (PrintField(f) + rest)) == Some(Member(f, rest))
  {
    KeyIsRead(f, rest);
    QuotedIsRead(f.value, rest);
  }

  /** Up to the value. */
  lemma KeyIsRead(f: Field, rest: string)
    requires Clean(f.key)
    ensures ReadQuoted(PrintField(f) + rest) == Some(Token(f.key, ": " + (Quoted(f.value) + rest)))
    ensures ReadQuoted(" " + (PrintField(f) + rest)) == Some(Token(f.key, ": " + (Quoted(f.value) + rest)))
    ensures Expect(": " + (Quoted(f.value) + rest), ':') == Some(" " + (Quoted(f.value) + rest))
  {
    var tail := " " + (Quoted(f.value) + rest);
    assert ": " + (Quoted(f.value) + rest) == ":" + tail;
    assert PrintField(f) + rest == Quoted(f.key) + (":" + tail);
    QuotedIsRead(f.key, ":" + tail);
    ExpectNow(':', tail);
  }

  predicate CleanField(f: Field) { Clean(f.key) && Clean(f.value) }

  /** Every key and every value but the last is clean. */
  predicate CleanButLast(fs: seq<Field>)
    requires |fs| > 0
  {
    Clean(fs[|fs| - 1].key) && forall f <- fs[..|fs| - 1] :: CleanField(f)
  }

  /** What is left once the only member's key is read. */
  lemma LastIsRead(f: Field)
    requires CleanField(f)
    ensures ReadMembers(PrintField(f) + "}") == Some([f]) && ReadMembers(" " + (PrintField(f) + "}")) == Some([f])
  {
    MemberIsRead(f, "}");
    ExpectOther('}', ',', "");
    ExpectNow('}', "");
    assert ['}'] + "" == "}";
  }

  lemma FirstMember(s: string)
    requires ReadMembers(s).Some?
    ensures ReadMember(s).Some?
    ensures var gs, m := ReadMembers(s).value, ReadMember(s).value;
            var comma := Expect(m.rest, ',');
            |m.rest| >= 1 && gs[0] == m.field &&
            if comma.Some? then ReadMembers(comma.value).Some? && gs[1..] == ReadMembers(comma.value).value else |gs| == 1
  {
  }

  lemma {:induction false} ValuesAreInside(s: string, j: nat)
    requires ReadMembers(s).Some? && j < |ReadMembers(s).value|
    ensures |ReadMembers(s).value[j].value| + 6 <= |s|
    decreases j
  {
    FirstMember(s);
    if j > 0 {
      var gs, rest := ReadMembers(s).value, Expect(ReadMember(s).value.rest, ',').value;
      assert gs[j] == gs[1..][j - 1];
      ValuesAreInside(rest, j - 1);
    }
  }

  lemma SamePrefix(x: string, y: string, s: string)
    requires x <= s && y <= s && |x| == |y|
    ensures x == y
  {
  }

  lemma FullValue(v: string, s: string, t: Token)
    requires v <= s && |s| == |v| + 2 && ReadString(s) == Some(t) && |t.rest| >= 1 && |t.value| >= |v|
    ensures Clean(v)
  {
    FullLengthIsClean(s);
    SamePrefix(t.value, v, s);
  }

  /** What reading makes of a last value that needs escapes: shorter values, or nothing at all. */
  predicate Falls(gs: Option<seq<Field>>, f: Field) {
    gs.Some? ==> |gs.value| > 0 && gs.value[0].key == f.key && forall j :: 0 <= j < |gs.value| ==> |gs.value[j].value| < |f.value|
  }

  /** The one member of `PrintField(f) + "}"` is read as its key, and what its value reads as. */
  lemma LastMember(s: string, f: Field)
    requires Clean(f.key) && (s == PrintField(f) + "}" || s == " " + (PrintField(f) + "}"))
    ensures var t := ReadString(f.value + "\"}");
            ReadMember(s) == if t.Some? then Some(Member(Field(f.key, t.value.value), t.value.rest)) else None
  {
    KeyIsRead(f, "}");
    var tail := f.value + "\"}";
    assert Quoted(f.value) + "}" == ['\"'] + tail;
    AfterQuote(tail);
  }

  lemma LastFalls(s: string, f: Field)
    requires Clean(f.key) && !Clean(f.value) && (s == PrintField(f) + "}" || s == " " + (PrintField(f) + "}"))
    ensures Falls(ReadMembers(s), f)
  {
    LastMember(s, f);
    if ReadMembers(s).Some? {
      FirstMember(s);
      var t := ReadString(f.value + "\"}").value;
      if |t.value| >= |f.value| {
        FullValue(f.value, f.value + "\"}", t);
      }
      OthersFall(s, |f.value|);
    }
  }

  lemma OthersFall(s: string, n: nat)
    requires ReadMembers(s).Some? && |ReadMember(s).value.rest| <= n + 1
    ensures forall j :: 0 < j < |ReadMembers(s).value| ==> |ReadMembers(s).value[j].value| < n
  {
    FirstMember(s);
    var gs := ReadMembers(s).value;
    forall j | 0 < j < |gs| ensures |gs[j].value| < n {
      assert gs[j] == gs[1..][j - 1];
      ValuesAreInside(Expect(ReadMember(s).value.rest, ',').value, j - 1);
    }
  }

  // ---------------------------------------------------------------- whole objects

  lemma FirstOfMore(s: string, f: Field, tail: string, rest: string)
    requires ReadMember(s) == Some(Member(f, tail)) && Expect(tail, ',') == Some(rest)
    ensures ReadMembers(s) == if ReadMembers(rest).Some? then Some([f] + ReadMembers(rest).value) else None
  {
  }

  lemma MoreIsRead(s: string, f: Field, p: string, rest: string)
    requires CleanField(f) && rest == " " + p
    requires s == PrintField(f) + (", " + p) || s == " " + (PrintField(f) + (", " + p))
    ensures ReadMembers(s) == if ReadMembers(rest).Some? then Some([f] + ReadMembers(rest).value) else None
  {
    var tail := ", " + p;
    MemberIsRead(f, tail);
    assert tail == [','] + rest;
    ExpectNow(',', rest);
    FirstOfMore(s, f, tail, rest);
  }

  /** All fields but the last are read back, and the last exactly if it is clean. */
  predicate ReadBack(gs: Option<seq<Field>>, fs: seq<Field>)
    requires |fs| > 0
  {
    var n := |fs| - 1;
    if Clean(fs[n].value) then gs == Some(fs)
    else gs.Some? ==> |gs.value| > n && gs.value[..n] == fs[..n] && Falls(Some(gs.value[n..]), fs[n])
  }

  lemma OneMoreReadBack(gs: Option<seq<Field>>, f: Field, more: seq<Field>)
    requires |more| > 0 && ReadBack(gs, more)
    ensures ReadBack(if gs.Some? then Some([f] + gs.value) else None, [f] + more)
  {
    var fs, n := [f] + more, |more| - 1;
    assert fs[n + 1] == more[n];
    if gs.Some? && !Clean(more[n].value) {
      var all := [f] + gs.value;
      assert all[n + 1..] == gs.value[n..];
      assert all[..n + 1] == [f] + gs.value[..n] && fs[..n + 1] == [f] + more[..n];
    }
  }

  lemma OneReadBack(f: Field, s: string)
    requires Clean(f.key) && (s == PrintField(f) + "}" || s == " " + (PrintField(f) + "}"))
    ensures ReadBack(ReadMembers(s), [f])
  {
    if Clean(f.value) {
      LastIsRead(f);
    } else {
      LastFalls(s, f);
      var gs := ReadMembers(s);
      assert gs.Some? ==> gs.value[0..] == gs.value;
    }
  }

  lemma PrintMore(fs: seq<Field>)
    requires |fs| > 1
    ensures PrintFields(fs) == PrintField(fs[0]) + (", " + PrintFields(fs[1..]))
  {
  }

  lemma {:induction false} MembersReadBack(fs: seq<Field>, s: string)
    requires |fs| > 0 && CleanButLast(fs) && (s == PrintFields(fs) || s == " " + PrintFields(fs))
    ensures ReadBack(ReadMembers(s), fs)
    decreases |fs|
  {
    if |fs| == 1 {
      assert fs == [fs[0]];
      OneReadBack(fs[0], s);
    } else {
      var more := fs[1..];
      assert fs == [fs[0]] + more && more[..|more| - 1] == fs[..|fs| - 1][1..];
      var rest := " " + PrintFields(more);
      MembersReadBack(more, rest);
      PrintMore(fs);
      MoreIsRead(s, fs[0], PrintFields(more), rest);
      OneMoreReadBack(ReadMembers(rest), fs[0], more);
    }
  }

  lemma ObjectIsRead(fs: seq<Field>)
    requires |fs| > 0
    ensures ReadObject(Print(fs)) == ReadMembers(PrintFields(fs))
  {
    var s := PrintFields(fs);
    ExpectNow('{', s);
    assert s[0] == '\"';
    ExpectOther('\"', '}', s[1..]);
    assert s == ['\"'] + s[1..] && Print(fs) == ['{'] + s;
  }

  /**
   * An object printed without escapes, all clean but perhaps its last value, is read back exactly when that is
   * clean too. Otherwise nothing can be read, or the last key gets a value that is too short, and so do all further ones.
   */
  lemma ReadBackExactlyWhen(fs: seq<Field>)
    requires |fs| > 0 && CleanButLast(fs)
    ensures ReadBack(ReadObject(Print(fs)), fs)
    ensures ReadObject(Print(fs)) == Some(fs) <==> Clean(fs[|fs| - 1].value)
  {
    ObjectIsRead(fs);
    MembersReadBack(fs, PrintFields(fs));
  }
}
