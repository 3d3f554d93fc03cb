/** The cache key of an events-list query, and why different queries never share one. */
module EventsKey {
  import opened Text
  import opened Tables

  type Byte = x: int | 0 <= x < 256

  // ---------------------------------------------------------------- base64url (RFC 4648, section 5), without padding

  type Sextet = x: int | 0 <= x < 64

  function First(a: Byte): Sextet { a / 4 }

  function Second(a: Byte, b: Byte): Sextet { a % 4 * 16 + b / 16 }

  function Third(b: Byte, c: Byte): Sextet { b % 16 * 4 + c / 64 }

  function Fourth(c: Byte): Sextet { c % 64 }

  /** Three bytes as four sextets; the last one or two bytes as two or three. */
  function Sextets(bytes: seq<Byte>): seq<Sextet> {
    if |bytes| == 0 then []
    else if |bytes| == 1 then [First(bytes[0]), Second(bytes[0], 0)]
    else if |bytes| == 2 then [First(bytes[0]), Second(bytes[0], bytes[1]), Third(bytes[1], 0)]
    else
      [First(bytes[0]), Second(bytes[0], bytes[1]), Third(bytes[1], bytes[2]), Fourth(bytes[2])] + Sextets(bytes[3..])
  }

  lemma FirstByteTold(a: Byte, b: Byte, a': Byte, b': Byte)
    requires First(a) == First(a') && Second(a, b) == Second(a', b')
    ensures a == a'
  {
    assert a % 4 == Second(a, b) / 16 && a' % 4 == Second(a', b') / 16;
  }

  lemma SecondHighTold(a: Byte, b: Byte, a': Byte, b': Byte)
    requires Second(a, b) == Second(a', b')
    ensures b / 16 == b' / 16
  {
    assert b / 16 == Second(a, b) % 16 && b' / 16 == Second(a', b') % 16;
  }

  lemma SecondLowTold(b: Byte, c: Byte, b': Byte, c': Byte)
    requires Third(b, c) == Third(b', c')
    ensures b % 16 == b' % 16
  {
    assert b % 16 == Third(b, c) / 4 && b' % 16 == Third(b', c') / 4;
  }

  lemma SecondByteTold(a: Byte, b: Byte, c: Byte, a': Byte, b': Byte, c': Byte)
    requires Second(a, b) == Second(a', b') && Third(b, c) == Third(b', c')
    ensures b == b'
  {
    SecondHighTold(a, b, a', b');
    SecondLowTold(b, c, b', c');
    assert b == b / 16 * 16 + b % 16 && b' == b' / 16 * 16 + b' % 16;
  }

  lemma ThirdByteTold(b: Byte, c: Byte, b': Byte, c': Byte)
    requires Third(b, c) == Third(b', c') && Fourth(c) == Fourth(c')
    ensures c == c'
  {
    assert c / 64 == Third(b, c) % 4 && c' / 64 == Third(b', c') % 4;
  }

  lemma {:induction false} SextetCount(bytes: seq<Byte>)
    ensures |Sextets(bytes)| == |bytes| + (|bytes| + 2) / 3
  {
    if |bytes| >= 3 {
      SextetCount(bytes[3..]);
      assert (|bytes| + 2) / 3 == 1 + (|bytes[3..]| + 2) / 3;
    }
  }

  lemma {:induction false} SextetsInjective(x: seq<Byte>, y: seq<Byte>)
    requires |x| == |y| && Sextets(x) == Sextets(y)
    ensures x == y
  {
    if |x| > 0 {
      var (s, t) := (Sextets(x), Sextets(y));
      var b, b' := if |x| >= 2 then x[1] else 0, if |y| >= 2 then y[1] else 0;
      var c, c' := if |x| >= 3 then x[2] else 0, if |y| >= 3 then y[2] else 0;
      assert s[0] == t[0] && s[1] == t[1];
      FirstByteTold(x[0], b, y[0], b');
      if |x| >= 2 {
        assert s[2] == t[2];
        SecondByteTold(x[0], b, c, y[0], b', c');
      }
      if |x| >= 3 {
        assert s[3] == t[3];
        ThirdByteTold(b, c, b', c');
        assert Sextets(x[3..]) == s[4..] == t[4..] == Sextets(y[3..]);
        SextetsInjective(x[3..], y[3..]);
        assert x == x[..3] + x[3..] && y == y[..3] + y[3..];
      }
    }
  }

  function Base64Char(x: Sextet): char {
    if x < 26 then ('A' as int + x) as char
    else if x < 52 then ('a' as int + x - 26) as char
    else if x < 62 then ('0' as int + x - 52) as char
    else if x == 62 then '-'
    else '_'
  }

  lemma CharsTell(x: Sextet, y: Sextet)
    ensures Base64Char(x) == Base64Char(y) ==> x == y
    ensures Base64Char(x) != ':'
  {
  }

  function Base64Text(sextets: seq<Sextet>): (text: string)
    ensures |text| == |sextets|
  {
    if sextets == [] then "" else [Base64Char(sextets[0])] + Base64Text(sextets[1..])
  }

  lemma {:induction false} Base64TextInjective(s: seq<Sextet>, t: seq<Sextet>)
    requires Base64Text(s) == Base64Text(t)
    ensures s == t
  {
    if s != [] {
      CharsTell(s[0], t[0]);
      assert Base64Text(s)[0] == Base64Text(t)[0] && Base64Text(s[1..]) == Base64Text(s)[1..] == Base64Text(t[1..]);
      Base64TextInjective(s[1..], t[1..]);
      assert s == [s[0]] + s[1..] && t == [t[0]] + t[1..];
    }
  }

  lemma {:induction false} Base64TextColonFree(s: seq<Sextet>)
    ensures ':' !in Base64Text(s)
  {
    if s != [] {
      CharsTell(s[0], s[0]);
      Base64TextColonFree(s[1..]);
    }
  }

  function Base64Url(bytes: seq<Byte>): string {
    Base64Text(Sextets(bytes))
  }

  /** Different bytes print differently: the length of the text tells the number of bytes, its characters the bytes. */
  lemma Base64UrlInjective(x: seq<Byte>, y: seq<Byte>)
    requires Base64Url(x) == Base64Url(y)
    ensures x == y
  {
    Base64TextInjective(Sextets(x), Sextets(y));
    SextetCount(x);
    SextetCount(y);
    SextetsInjective(x, y);
  }

  // ---------------------------------------------------------------- UTF-8

  function Utf8Char(c: char): (bytes: seq<Byte>)
    ensures 1 <= |bytes| <= 4
  {
    var x := c as int;
    if x < 0x80 then [x]
    else if x < 0x800 then [0xC0 + x / 64, 0x80 + x % 64]
    else if x < 0x10000 then [0xE0 + x / 64 / 64, 0x80 + x / 64 % 64, 0x80 + x % 64]
    else [0xF0 + x / 64 / 64 / 64, 0x80 + x / 64 / 64 % 64, 0x80 + x / 64 % 64, 0x80 + x % 64]
  }

  function Utf8(text: string): seq<Byte> {
    if text == "" then [] else Utf8Char(text[0]) + Utf8(text[1..])
  }

  /** How many bytes the first character takes, read from its first byte. */
  function Width(first: Byte): nat {
    if first < 0x80 then 1 else if first < 0xE0 then 2 else if first < 0xF0 then 3 else 4
  }

  /** The number the first bytes encode. */
  function CodePoint(bytes: seq<Byte>): int
    requires |bytes| > 0 && |bytes| == Width(bytes[0])
  {
    match |bytes|
    case 1 => bytes[0]
    case 2 => From64s(bytes[0] as int - 0xC0, bytes[1])
    case 3 => From64s(From64s(bytes[0] as int - 0xE0, bytes[1]), bytes[2])
    case _ => From64s(From64s(From64s(bytes[0] as int - 0xF0, bytes[1]), bytes[2]), bytes[3])
  }

  /** Appends the six bits of a continuation byte. */
  function From64s(high: int, low: Byte): int {
    high * 64 + (low as int - 0x80)
  }

  lemma CharCodePoint(c: char)
    ensures |Utf8Char(c)| == Width(Utf8Char(c)[0]) && CodePoint(Utf8Char(c)) == c as int
  {
  }

  lemma {:induction false} Utf8Injective(s: string, t: string)
    requires Utf8(s) == Utf8(t)
    ensures s == t
  {
    if s != "" && t != "" {
      var a, b := Utf8Char(s[0]), Utf8Char(t[0]);
      CharCodePoint(s[0]);
      CharCodePoint(t[0]);
      assert a[0] == Utf8(s)[0] == b[0];
      assert a == Utf8(s)[..|a|] == b;
      assert Utf8(s[1..]) == Utf8(s)[|a|..] == Utf8(t[1..]);
      Utf8Injective(s[1..], t[1..]);
      assert s == [s[0]] + s[1..] && t == [t[0]] + t[1..];
    } else {
      assert s == "" <==> Utf8(s) == [];
      assert t == "" <==> Utf8(t) == [];
    }
  }

  // ---------------------------------------------------------------- JSON text (RFC 8259, section 7)

  function HexDigit(x: nat): char
    requires x < 16
  {
    if x < 10 then ('0' as int + x) as char else ('a' as int + x - 10) as char
  }

  type Nibble = x: int | 0 <= x < 16

  type HighNibble = x: int | 8 <= x < 16 witness 8

  /**
   * What a string of the program is made of: Unicode characters, and surrogates without their partner, each by the last
   * three hexadecimal digits of its number.
   */
  datatype Unit = Scalar(c: char) | Lone(high: HighNibble, middle: Nibble, low: Nibble)

  /** One unit inside a JSON string; a lone surrogate is written as its number. */
  function Escape(u: Unit): (text: string)
    ensures text != ""
  {
    match u
    case Scalar(c) => EscapeChar(c)
    case Lone(high, middle, low) => "\\ud" + [HexDigit(high), HexDigit(middle), HexDigit(low)]
  }

  function EscapeChar(c: char): (text: string)
    ensures text != ""
  {
    if c == '"' then "\\\""
    else if c == '\\' then "\\\\"
    else if c == '\U{0008}' then "\\b"
    else if c == '\t' then "\\t"
    else if c == '\n' then "\\n"
    else if c == '\U{000C}' then "\\f"
    else if c == '\r' then "\\r"
    else if c < ' ' then "\\u00" + [HexDigit(c as int / 16), HexDigit(c as int % 16)]
    else [c]
  }

  /** The rest of a JSON string after its opening quote. */
  function Quoted(s: seq<Unit>): (text: string)
    ensures text != ""
  {
    if s == [] then "\"" else Escape(s[0]) + Quoted(s[1..])
  }

  /** JSON.stringify of an object with the given members in order; undefined members are left out. */
  function Members(names: seq<string>, values: seq<Option<seq<Unit>>>, first: bool): string
    requires |names| == |values|
  {
    if names == [] then "}"
    else
      var rest := Members(names[1..], values[1..], first && values[0].None?);
      if values[0].None? then rest
      else (if first then "" else ",") + "\"" + names[0] + "\":\"" + Quoted(values[0].value) + rest
  }

  function Json(names: seq<string>, values: seq<Option<seq<Unit>>>): string
    requires |names| == |values|
  {
    "{" + Members(names, values, true)
  }

  /**
   * The fifth and sixth characters of an escape of a control character or a surrogate, and its fourth, tell which it
   * is.
   */
  lemma EscapesTell(u: Unit, v: Unit)
    requires |Escape(u)| == |Escape(v)| == 6
    requires Escape(u)[2] == Escape(v)[2] && Escape(u)[3] == Escape(v)[3]
    requires Escape(u)[4] == Escape(v)[4] && Escape(u)[5] == Escape(v)[5]
    ensures u == v
  {
    if u.Scalar? && v.Scalar? {
      HexInjective(u.c as int / 16, v.c as int / 16);
      HexInjective(u.c as int % 16, v.c as int % 16);
    } else if u.Lone? && v.Lone? {
      HexInjective(u.high, v.high);
      HexInjective(u.middle, v.middle);
      HexInjective(u.low, v.low);
    }
  }

  /** The length of an escape can be told from its first two characters, and short ones from those alone. */
  lemma EscapeLength(u: Unit)
    ensures Escape(u)[0] != '\\' <==> |Escape(u)| == 1
    ensures |Escape(u)| == 1 || |Escape(u)| == 2 || |Escape(u)| == 6
    ensures |Escape(u)| > 1 ==> (|Escape(u)| == 6 <==> Escape(u)[1] == 'u')
    ensures Escape(u)[0] != '"'
  {
  }

  lemma ShortEscapesTell(u: Unit, v: Unit)
    ensures Escape(u) == Escape(v) && |Escape(u)| <= 2 ==> u == v
  {
  }

  /** Escapes can be read off the front of a text. */
  lemma EscapePrefix(u: Unit, x: string, v: Unit, y: string)
    requires Escape(u) + x == Escape(v) + y
    ensures u == v && x == y
  {
    var s, t := Escape(u) + x, Escape(v) + y;
    EscapeLength(u);
    EscapeLength(v);
    assert s[0] == Escape(u)[0] && t[0] == Escape(v)[0];
    assert |Escape(u)| > 1 ==> s[1] == Escape(u)[1] && t[1] == Escape(v)[1];
    var n := |Escape(u)|;
    assert |Escape(v)| == n;
    assert Escape(u) == s[..n] && Escape(v) == t[..n] && x == s[n..] && y == t[n..];
    if n == 6 { EscapesTell(u, v); } else { ShortEscapesTell(u, v); }
  }

  lemma HexInjective(x: nat, y: nat)
    ensures x < 16 && y < 16 ==> (HexDigit(x) == HexDigit(y) <==> x == y)
  {
  }

  lemma QuotedStep(s: seq<Unit>, x: string)
    requires s != []
    ensures Quoted(s) + x == Escape(s[0]) + (Quoted(s[1..]) + x)
    ensures (Quoted(s) + x)[0] != '"'
  {
    EscapeLength(s[0]);
  }

  /** So can whole strings. */
  lemma {:induction false} QuotedPrefix(s: seq<Unit>, x: string, t: seq<Unit>, y: string)
    requires Quoted(s) + x == Quoted(t) + y
    ensures s == t && x == y
    decreases |s| + |t|
  {
    if s != [] { QuotedStep(s, x); }
    if t != [] { QuotedStep(t, y); }
    if s != [] && t != [] {
      EscapePrefix(s[0], Quoted(s[1..]) + x, t[0], Quoted(t[1..]) + y);
      QuotedPrefix(s[1..], x, t[1..], y);
      assert s == [s[0]] + s[1..] && t == [t[0]] + t[1..];
    } else {
      QuoteEnds(x, y, s, t);
    }
  }

  lemma QuoteEnds(x: string, y: string, s: seq<Unit>, t: seq<Unit>)
    requires Quoted(s) + x == Quoted(t) + y && (s == [] || t == [])
    requires s != [] ==> (Quoted(s) + x)[0] != '"'
    requires t != [] ==> (Quoted(t) + y)[0] != '"'
    ensures s == t && x == y
  {
    var text, text' := Quoted(s) + x, Quoted(t) + y;
    assert s == [] ==> text[0] == '"';
    assert t == [] ==> text'[0] == '"';
    assert x == text[|Quoted(s)|..] && y == text'[|Quoted(t)|..];
  }

  // ---------------------------------------------------------------- objects

  /** Every name starts with a character of its own, as q, startDate, endDate, city and venueId do. */
  predicate Telling(names: seq<string>) {
    && (forall i :: 0 <= i < |names| ==> names[i] != "" && names[i][0] != '"')
    && (forall i, j :: 0 <= i < j < |names| ==> names[i][0] != names[j][0])
  }

  /** The position of the character that tells which member comes next. */
  function TellingAt(first: bool): nat { if first then 1 else 2 }

  /** What stands there is the first character of some name still to come, or the text ends first. */
  lemma {:induction false} NextMember(names: seq<string>, values: seq<Option<seq<Unit>>>, first: bool)
    requires |names| == |values| && Telling(names)
    ensures var text := Members(names, values, first);
            text == "}" ||
            (|text| > TellingAt(first) && text[0] != '}' &&
             exists i :: 0 <= i < |names| && text[TellingAt(first)] == names[i][0])
  {
    if names != [] {
      if values[0].None? {
        assert Telling(names[1..]);
        NextMember(names[1..], values[1..], first);
        var text := Members(names, values, first);
        if text != "}" {
          var i :| 0 <= i < |names[1..]| && text[TellingAt(first)] == names[1..][i][0];
          assert names[1..][i] == names[i + 1];
        }
      } else {
        var text := Members(names, values, first);
        assert text[TellingAt(first)] == names[0][0];
      }
    }
  }

  /** A missing first member shows: the texts already differ where its name would tell. */
  lemma MissingShows(names: seq<string>, values: seq<Option<seq<Unit>>>, values': seq<Option<seq<Unit>>>, first: bool)
    requires |names| == |values| == |values'| > 0 && Telling(names) && values[0].Some? && values'[0].None?
    ensures Members(names, values, first) != Members(names, values', first)
  {
    var text, text' := Members(names, values, first), Members(names, values', first);
    assert text[TellingAt(first)] == names[0][0];
    assert Telling(names[1..]);
    NextMember(names[1..], values'[1..], first);
    if text' != "}" {
      var i :| 0 <= i < |names[1..]| && text'[TellingAt(first)] == names[1..][i][0];
      assert names[1..][i] == names[i + 1];
    }
  }

  lemma {:induction false} MembersInjective(names: seq<string>, values: seq<Option<seq<Unit>>>,
                                            values': seq<Option<seq<Unit>>>, first: bool)
    requires |names| == |values| == |values'| && Telling(names)
    requires Members(names, values, first) == Members(names, values', first)
    ensures values == values'
  {
    if names != [] {
      assert Telling(names[1..]);
      if values[0].Some? && values'[0].None? { MissingShows(names, values, values', first); }
      if values[0].None? && values'[0].Some? { MissingShows(names, values', values, first); }
      if values[0].Some? {
        PresentMember(names, values, values', first);
      }
      MembersInjective(names[1..], values[1..], values'[1..], first && values[0].None?);
      assert values == [values[0]] + values[1..] && values' == [values'[0]] + values'[1..];
    }
  }

  lemma PresentMember(names: seq<string>, values: seq<Option<seq<Unit>>>, values': seq<Option<seq<Unit>>>, first: bool)
    requires |names| == |values| == |values'| > 0 && values[0].Some? && values'[0].Some?
    requires Members(names, values, first) == Members(names, values', first)
    ensures values[0] == values'[0] &&
            Members(names[1..], values[1..], false) == Members(names[1..], values'[1..], false)
  {
    var x, y := Members(names[1..], values[1..], false), Members(names[1..], values'[1..], false);
    var head := (if first then "" else ",") + "\"" + names[0] + "\":\"";
    MemberText(names, values, first, head);
    MemberText(names, values', first, head);
    SameTail(head, Quoted(values[0].value) + x, Quoted(values'[0].value) + y);
    QuotedPrefix(values[0].value, x, values'[0].value, y);
  }

  lemma MemberText(names: seq<string>, values: seq<Option<seq<Unit>>>, first: bool, head: string)
    requires |names| == |values| > 0 && values[0].Some?
    requires head == (if first then "" else ",") + "\"" + names[0] + "\":\""
    ensures Members(names, values, first) == head + (Quoted(values[0].value) + Members(names[1..], values[1..], false))
  {
  }

  lemma SameTail(head: string, x: string, y: string)
    requires head + x == head + y
    ensures x == y
  {
    assert (head + x)[|head|..] == x && (head + y)[|head|..] == y;
  }

  // ---------------------------------------------------------------- the key

  datatype Filters = Filters(q: Option<seq<Unit>>, startDate: Option<seq<Unit>>, endDate: Option<seq<Unit>>,
      city: Option<seq<Unit>>, venueId: Option<seq<Unit>>)

  type Positive = x: int | 1 <= x witness 1

  datatype Query = Query(filters: Filters, page: Option<Positive>, limit: Option<Positive>)

  const FILTER_NAMES: seq<string> := ["q", "startDate", "endDate", "city", "venueId"]

  function FilterValues(f: Filters): (values: seq<Option<seq<Unit>>>)
    ensures |values| == |FILTER_NAMES|
  {
    [f.q, f.startDate, f.endDate, f.city, f.venueId]
  }

  function PageOf(query: Query): Positive {
    match query.page case None => 1 case Some(n) => n
  }

  function LimitOf(query: Query): Positive {
    match query.limit case None => 20 case Some(n) => n
  }

  function FilterHash(f: Filters): string {
    Base64Url(Utf8(Json(FILTER_NAMES, FilterValues(f))))
  }

  function ListCacheKey(version: nat, query: Query): string {
    "events:list:v" +
        (Decimal(version) + ":" +
        (FilterHash(query.filters) + ":" + (Decimal(PageOf(query)) + ":" + Decimal(LimitOf(query)))))
  }

  lemma JsonInjective(names: seq<string>, values: seq<Option<seq<Unit>>>, values': seq<Option<seq<Unit>>>)
    requires |names| == |values| == |values'| && Telling(names)
    requires Json(names, values) == Json(names, values')
    ensures values == values'
  {
    SameTail("{", Members(names, values, true), Members(names, values', true));
    MembersInjective(names, values, values', true);
  }

  lemma HashInjective(f: Filters, g: Filters)
    ensures FilterHash(f) == FilterHash(g) <==> f == g
  {
    if FilterHash(f) == FilterHash(g) {
      var names, values, values' := FILTER_NAMES, FilterValues(f), FilterValues(g);
      Base64UrlInjective(Utf8(Json(names, values)), Utf8(Json(names, values')));
      Utf8Injective(Json(names, values), Json(names, values'));
      assert Telling(names);
      JsonInjective(names, values, values');
      SameFilters(f, g);
    }
  }

  lemma SameFilters(f: Filters, g: Filters)
    ensures FilterValues(f) == FilterValues(g) ==> f == g
  {
  }

  lemma FirstColon(a: string, x: string)
    requires ':' !in a
    ensures var text := a + ":" + x;
            text[|a|] == ':' && (forall k :: 0 <= k < |a| ==> text[k] != ':') && text[..|a|] == a &&
            text[|a| + 1..] == x
  {
  }

  /** Two texts with a colon-free part up to the first colon agree in that part and after it. */
  lemma ColonSplits(a: string, x: string, b: string, y: string)
    requires ':' !in a && ':' !in b && a + ":" + x == b + ":" + y
    ensures a == b && x == y
  {
    FirstColon(a, x);
    FirstColon(b, y);
  }

  lemma FilterHashColonFree(f: Filters)
    ensures ':' !in FilterHash(f)
  {
    Base64TextColonFree(Sextets(Utf8(Json(FILTER_NAMES, FilterValues(f)))));
  }

  /** Equal keys mean equal version, filters, page and limit, the defaults filled in. */
  lemma KeyInjective(version: nat, query: Query, version': nat, query': Query)
    ensures ListCacheKey(version, query) == ListCacheKey(version', query') <==>
            version == version' && query.filters == query'.filters && PageOf(query) == PageOf(query') &&
            LimitOf(query) == LimitOf(query')
  {
    if ListCacheKey(version, query) == ListCacheKey(version', query') {
      var (hash, hash') := (FilterHash(query.filters), FilterHash(query'.filters));
      var last, last' := Decimal(PageOf(query)) + ":" + Decimal(LimitOf(query)), Decimal(PageOf(query')) + ":" +
          Decimal(LimitOf(query'));
      SameTail("events:list:v", Decimal(version) + ":" + (hash + ":" + last), Decimal(version') + ":" +
          (hash' + ":" + last'));
      assert !IsDigit(':');
      ColonSplits(Decimal(version), hash + ":" + last, Decimal(version'), hash' + ":" + last');
      FilterHashColonFree(query.filters);
      FilterHashColonFree(query'.filters);
      ColonSplits(hash, last, hash', last');
      ColonSplits(Decimal(PageOf(query)), Decimal(LimitOf(query)), Decimal(PageOf(query')), Decimal(LimitOf(query')));
      DecimalInjective(version, version');
      DecimalInjective(PageOf(query), PageOf(query'));
      DecimalInjective(LimitOf(query), LimitOf(query'));
      HashInjective(query.filters, query'.filters);
    }
  }
}
