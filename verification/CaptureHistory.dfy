/**
 Capture histories as text: `[[epoch,value],[epoch,value],...]`, written and parsed again.

 A C string is the characters before its terminator, and a pointer into it the rest of them.
 */
module CaptureHistory {
  import opened Common

  datatype Entry = Entry(epoch: nat, value: nat)

  /** Both fields are 64-bit words. */
  predicate Fits(e: Entry) { e.epoch < WORD && e.value < WORD }

  // ---------------------------------------------------------------------------------------
  // Numbers

  const DIGITS: string := "0123456789"

  predicate IsDigit(c: char) { '0' <= c <= '9' }

  function DigitValue(c: char): nat
    requires IsDigit(c)
  {
    c as nat - '0' as nat
  }

  /** What %llu prints. */
  function Decimal(n: nat): (s: string)
    ensures |s| > 0 && forall i | 0 <= i < |s| :: IsDigit(s[i])
  {
    if n < 10 then [DIGITS[n]] else Decimal(n / 10) + [DIGITS[n % 10]]
  }

  predicate AllDigits(s: string) { forall i | 0 <= i < |s| :: IsDigit(s[i]) }

  function Number(s: string): nat
    requires AllDigits(s)
  {
    if s == [] then 0 else 10 * Number(s[..|s| - 1]) + DigitValue(s[|s| - 1])
  }

  lemma {:induction false} NumberOfDecimal(n: nat)
    ensures Number(Decimal(n)) == n
  {
    if n >= 10 {
      NumberOfDecimal(n / 10);
      assert Decimal(n)[..|Decimal(n)| - 1] == Decimal(n / 10);
    }
  }

  function Pow10(k: nat): nat { if k == 0 then 1 else 10 * Pow10(k - 1) }

  lemma {:induction false} DecimalLength(n: nat, k: nat)
    requires k > 0 && n < Pow10(k)
    ensures |Decimal(n)| <= k
  {
    if n >= 10 { DecimalLength(n / 10, k - 1); }
  }

  /** A 64-bit word has at most twenty digits. */
  lemma WordLength(n: nat)
    requires n < WORD
    ensures |Decimal(n)| <= 20
  {
    assert Pow10(10) == 10000000000;
    Pow10Twenty();
    DecimalLength(n, 20);
  }

  lemma Pow10Twenty()
    ensures Pow10(20) > WORD
  {
    assert Pow10(10) == 10000000000;
    assert Pow10(15) == 100000 * Pow10(10);
    assert Pow10(20) == 100000 * Pow10(15);
  }

  // ---------------------------------------------------------------------------------------
  // strtoull

  /** isspace of the C locale. */
  predicate IsSpace(c: char) { c == ' ' || '\t' <= c <= '\r' }

  function SkipLeading(s: string): string {
    if s != [] && IsSpace(s[0]) then SkipLeading(s[1..]) else s
  }

  function LeadingDigits(s: string): (n: nat)
    ensures n <= |s| && AllDigits(s[..n])
  {
    if s != [] && IsDigit(s[0]) then 1 + LeadingDigits(s[1..]) else 0
  }

  /** Base 10: leading space, a sign, digits; saturating; no digits give 0 and consume nothing. */
  function StrToUll(s: string): (string, nat) {
    var t := SkipLeading(s);
    var negative := t != [] && t[0] == '-';
    var u := if t != [] && (t[0] == '-' || t[0] == '+') then t[1..] else t;
    var n := LeadingDigits(u);
    var v := Number(u[..n]);
    if n == 0 then (s, 0)
    else if v >= WORD then (u[n..], WORD - 1)
    else (u[n..], if negative then (WORD - v) % WORD else v)
  }

  lemma {:induction false} LeadingDigitsOf(d: string, rest: string)
    requires AllDigits(d) && (rest == [] || !IsDigit(rest[0]))
    ensures LeadingDigits(d + rest) == |d|
  {
    if d == [] {
      assert d + rest == rest;
    } else {
      assert (d + rest)[1..] == d[1..] + rest;
      LeadingDigitsOf(d[1..], rest);
    }
  }

  /** A printed word in front of a non-digit is read back. */
  lemma ReadsBack(n: nat, rest: string)
    requires n < WORD && (rest == [] || !IsDigit(rest[0]))
    ensures StrToUll(Decimal(n) + rest) == (rest, n)
  {
    var d := Decimal(n);
    var s := d + rest;
    assert s[0] == d[0];
    LeadingDigitsOf(d, rest);
    assert s[..|d|] == d && s[|d|..] == rest;
    NumberOfDecimal(n);
  }

  /** strtoull itself: a sign is taken, a negated number wraps, and one too large saturates. */
  lemma ReadsSigned(n: nat, rest: string, negative: bool)
    requires rest == [] || !IsDigit(rest[0])
    ensures StrToUll((if negative then "-" else "+") + (Decimal(n) + rest)) ==
      (rest, if n >= WORD then WORD - 1 else if negative then (WORD - n) % WORD else n)
  {
    var d := Decimal(n);
    var s := d + rest;
    var t := (if negative then "-" else "+") + s;
    LeadingDigitsOf(d, rest);
    assert s[..|d|] == d && s[|d|..] == rest;
    assert t[1..] == s && SkipLeading(t) == t;
    NumberOfDecimal(n);
  }

  /** Without a digit behind the white space and the sign, nothing is consumed and the number is 0. */
  lemma ReadsNothing(gap: string, sign: string, rest: string)
    requires (forall i | 0 <= i < |gap| :: IsSpace(gap[i])) && sign in {"", "+", "-"}
    requires rest == [] || !IsDigit(rest[0])
    requires sign == "" && rest != [] ==> !IsSpace(rest[0]) && rest[0] != '+' && rest[0] != '-'
    ensures StrToUll(gap + (sign + rest)) == (gap + (sign + rest), 0)
  {
    SkipLeadingSpace(gap, sign + rest);
    assert sign != "" ==> (sign + rest)[1..] == rest;
    assert sign == "" ==> sign + rest == rest;
  }

  lemma {:induction false} SkipLeadingSpace(gap: string, s: string)
    requires (forall i | 0 <= i < |gap| :: IsSpace(gap[i])) && (s == [] || !IsSpace(s[0]))
    ensures SkipLeading(gap + s) == s
  {
    if gap == [] {
      assert gap + s == s;
    } else {
      assert (gap + s)[1..] == gap[1..] + s;
      SkipLeadingSpace(gap[1..], s);
    }
  }

  // ---------------------------------------------------------------------------------------
  // Writing

  function EntryText(e: Entry): string { "[" + Decimal(e.epoch) + "," + Decimal(e.value) + "]" }

  /** The entries separated by commas. */
  function Body(es: seq<Entry>): string {
    if es == [] then ""
    else if |es| == 1 then EntryText(es[0])
    else Body(es[..|es| - 1]) + "," + EntryText(es[|es| - 1])
  }

  function Text(es: seq<Entry>): string { "[" + Body(es) + "]" }

  /** arts_write_capture_history: the buffer handed on, or nothing for an empty history. */
  method WriteHistory(es: seq<Entry>) returns (written: bool, buf: string)
    ensures written <==> es != []
    ensures buf == if written then Text(es) else ""
  {
    if |es| == 0 {
      return false, "";
    }
    written := true;
    buf := "[";
    for c := 0 to |es|
      invariant buf == "[" + Body(es[..c])
    {
      BodyNext(es, c);
      if c > 0 {
        buf := buf + ",";
      }
      buf := buf + EntryText(es[c]);
    }
    buf := buf + "]";
    assert es[..|es|] == es;
  }

  lemma BodyNext(es: seq<Entry>, c: nat)
    requires c < |es|
    ensures Body(es[..c + 1]) == Body(es[..c]) + (if c > 0 then "," else "") + EntryText(es[c])
  {
    assert es[..c + 1][..c] == es[..c];
    assert es[..c + 1][c] == es[c];
  }

  lemma {:induction false} BodyLength(es: seq<Entry>)
    requires forall i | 0 <= i < |es| :: Fits(es[i])
    ensures |Body(es)| <= 44 * |es|
  {
    if es != [] {
      var last := es[|es| - 1];
      BodyLength(es[..|es| - 1]);
      WordLength(last.epoch);
      WordLength(last.value);
    }
  }

  /** Text and terminator fit the buffer that is allocated. */
  lemma TextFitsBuffer(es: seq<Entry>)
    requires forall i | 0 <= i < |es| :: Fits(es[i])
    ensures |Text(es)| + 1 <= 45 * |es| + 10
  {
    BodyLength(es);
  }

  // ---------------------------------------------------------------------------------------
  // Parsing

  predicate IsJsonSpace(c: char) { c == ' ' || c == '\t' || c == '\n' || c == '\r' }

  function SkipSpace(s: string): string {
    if s != [] && IsJsonSpace(s[0]) then SkipSpace(s[1..]) else s
  }

  function DropIf(s: string, c: char): string { if s != [] && s[0] == c then s[1..] else s }

  datatype Parsed = Stop | Next(rest: string, entry: Entry)

  /** strtoull as the parser uses it: the rest of the text, and the number. */
  type Reader = string -> (string, nat)

  function ParseEntry(read: Reader, s: string): Parsed {
    var t := SkipSpace(DropIf(SkipSpace(s), ','));
    if t == [] || t[0] != '[' then Stop
    else
      var (u, epoch) := read(t[1..]);
      var (w, value) := read(SkipSpace(DropIf(SkipSpace(u), ',')));
      Next(DropIf(SkipSpace(w), ']'), Entry(epoch, value))
  }

  /** Entry after entry, as long as there is one and the limit is not reached. */
  function ParseEntries(parse: string -> Parsed, s: string, max: nat): seq<Entry>
    decreases max
  {
    if s == [] || s[0] == ']' || max == 0 then []
    else
      match parse(s)
      case Stop => []
      case Next(rest, entry) => [entry] + ParseEntries(parse, rest, max - 1)
  }

  function EntryParser(read: Reader): string -> Parsed { (s: string) => ParseEntry(read, s) }

  function ParseHistory(read: Reader, s: string, max: nat): seq<Entry> {
    if s == [] || s[0] != '[' then [] else ParseEntries(EntryParser(read), s[1..], max)
  }

  method SkipWhitespace(s: string) returns (p: string)
    ensures p == SkipSpace(s)
  {
    p := s;
    while p != [] && IsJsonSpace(p[0])
      invariant SkipSpace(p) == SkipSpace(s)
      decreases |p|
    {
      p := p[1..];
    }
  }

  /** Spaces, a comma if there is one, and spaces again. */
  method SkipComma(s: string) returns (p: string)
    ensures p == SkipSpace(DropIf(SkipSpace(s), ','))
  {
    p := SkipWhitespace(s);
    if p != [] && p[0] == ',' {
      p := p[1..];
    }
    p := SkipWhitespace(p);
  }

  /** One entry. */
  method ParseOne(read: Reader, s: string) returns (r: Parsed)
    ensures r == ParseEntry(read, s)
  {
    var p := SkipComma(s);
    if p == [] || p[0] != '[' {
      return Stop;
    }
    var (u, epoch) := read(p[1..]);
    p := SkipComma(u);
    var (w, value) := read(p);
    p := SkipWhitespace(w);
    if p != [] && p[0] == ']' {
      p := p[1..];
    }
    return Next(p, Entry(epoch, value));
  }

  /** arts_json_parse_capture_history. */
  method ParseCaptureHistory(read: Reader, s: string, max: nat) returns (entries: seq<Entry>)
    ensures entries == ParseHistory(read, s, max)
    ensures |entries| <= max
  {
    entries := [];
    if s == [] || s[0] != '[' {
      return;
    }
    entries := ParseRest(read, EntryParser(read), s[1..], max);
  }

  /** The loop. */
  method ParseRest(read: Reader, ghost parse: string -> Parsed, s: string, max: nat) returns (entries: seq<Entry>)
    requires forall t :: parse(t) == ParseEntry(read, t)
    ensures entries == ParseEntries(parse, s, max)
    ensures |entries| <= max
  {
    entries := [];
    var p := s;
    ghost var all, todo, left: nat := ParseEntries(parse, s, max), ParseEntries(parse, s, max), max;
    while p != [] && p[0] != ']' && |entries| < max
      invariant |entries| + left == max && entries + todo == all
      invariant todo == ParseEntries(parse, p, left)
      decreases left
    {
      var r := ParseOne(read, p);
      ParseStep(parse, p, left);
      if r.Stop? {
        return;
      }
      left := left - 1;
      todo := ParseEntries(parse, r.rest, left);
      AppendStep(entries, r.entry, todo);
      entries, p := entries + [r.entry], r.rest;
    }
    ParseStops(parse, p, left);
  }

  lemma ParseStops(parse: string -> Parsed, p: string, max: nat)
    requires p == [] || p[0] == ']' || max == 0
    ensures ParseEntries(parse, p, max) == []
  {
  }

  lemma AppendStep(entries: seq<Entry>, e: Entry, todo: seq<Entry>)
    ensures entries + ([e] + todo) == (entries + [e]) + todo
  {
  }

  lemma ParseStep(parse: string -> Parsed, p: string, max: nat)
    requires p != [] && p[0] != ']' && max > 0
    ensures parse(p).Stop? ==> ParseEntries(parse, p, max) == []
    ensures parse(p).Next? ==>
      ParseEntries(parse, p, max) == [parse(p).entry] + ParseEntries(parse, parse(p).rest, max - 1)
  {
  }

  // ---------------------------------------------------------------------------------------
  // Round trip

  function CommaEntry(e: Entry): string { "," + EntryText(e) }

  /** The entries after the first, each behind a comma. */
  function Tail(es: seq<Entry>): string {
    if es == [] then "" else CommaEntry(es[0]) + Tail(es[1..])
  }

  lemma {:induction false} TailAppend(es: seq<Entry>, e: Entry)
    ensures Tail(es + [e]) == Tail(es) + CommaEntry(e)
  {
    if es == [] {
      assert es + [e] == [e] && [e][1..] == [];
    } else {
      TailAppend(es[1..], e);
      assert (es + [e])[1..] == es[1..] + [e];
      Assoc(CommaEntry(es[0]), Tail(es[1..]), CommaEntry(e));
    }
  }

  lemma Assoc(a: string, b: string, c: string)
    ensures (a + b) + c == a + (b + c)
  {
  }

  /** The text seen from its front. */
  lemma {:induction false} BodyFromFront(es: seq<Entry>)
    requires es != []
    ensures Body(es) == EntryText(es[0]) + Tail(es[1..])
  {
    if |es| > 1 {
      var n := |es| - 1;
      BodyFromFront(es[..n]);
      assert es[..n][1..] + [es[n]] == es[1..];
      TailAppend(es[..n][1..], es[n]);
      Assoc(Body(es[..n]), ",", EntryText(es[n]));
      Assoc(EntryText(es[0]), Tail(es[..n][1..]), CommaEntry(es[n]));
    }
  }

  /** A printed entry without its opening bracket is read back. */
  lemma FieldsReadBack(e: Entry, rest: string, s: string)
    requires Fits(e) && s == Decimal(e.epoch) + ("," + (Decimal(e.value) + ("]" + rest)))
    ensures StrToUll(s) == ("," + (Decimal(e.value) + ("]" + rest)), e.epoch)
    ensures StrToUll(Decimal(e.value) + ("]" + rest)) == ("]" + rest, e.value)
  {
    ReadsBack(e.epoch, "," + (Decimal(e.value) + ("]" + rest)));
    ReadsBack(e.value, "]" + rest);
  }

  lemma SkipOneComma(s: string)
    requires s != [] && !IsJsonSpace(s[0]) && s[0] != ','
    ensures SkipSpace(DropIf(SkipSpace("," + s), ',')) == s
    ensures SkipSpace(DropIf(SkipSpace(s), ',')) == s
  {
    assert ("," + s)[1..] == s;
  }

  lemma CloseBracket(rest: string)
    ensures DropIf(SkipSpace("]" + rest), ']') == rest
  {
    assert ("]" + rest)[1..] == rest;
  }

  /** An entry is read back and the rest is left. */
  lemma EntryReadsBack(e: Entry, rest: string, s: string)
    requires Fits(e) && SkipSpace(DropIf(SkipSpace(s), ',')) ==
      "[" + (Decimal(e.epoch) + ("," + (Decimal(e.value) + ("]" + rest))))
    ensures ParseEntry(StrToUll, s) == Next(rest, e)
  {
    var t := SkipSpace(DropIf(SkipSpace(s), ','));
    var v := Decimal(e.value) + ("]" + rest);
    FieldsReadBack(e, rest, t[1..]);
    assert v[0] == Decimal(e.value)[0];
    SkipOneComma(v);
    CloseBracket(rest);
  }

  /** The first entries, up to the limit. */
  function Cut(es: seq<Entry>, max: nat): seq<Entry> { if |es| <= max then es else es[..max] }

  /** One entry read back in front of the others. */
  lemma FirstReadsBack(parse: string -> Parsed, s: string, rest: string, es: seq<Entry>, max: nat)
    requires s != [] && s[0] != ']' && es != [] && parse(s) == Next(rest, es[0])
    requires max > 0 ==> ParseEntries(parse, rest, max - 1) == Cut(es[1..], max - 1)
    ensures ParseEntries(parse, s, max) == Cut(es, max)
  {
    if max > 0 {
      ParseStep(parse, s, max);
      assert [es[0]] + es[1..] == es;
    }
  }

  lemma TailFront(es: seq<Entry>)
    requires es != []
    ensures Tail(es) + "]" == CommaEntry(es[0]) + (Tail(es[1..]) + "]")
    ensures (Tail(es) + "]")[0] == ','
  {
    Assoc(CommaEntry(es[0]), Tail(es[1..]), "]");
  }

  /** A parser that reads back single entries reads back all of them. */
  lemma {:induction false} TailReadsBack(parse: string -> Parsed, es: seq<Entry>, max: nat)
    requires forall i | 0 <= i < |es| :: Fits(es[i])
    requires forall e, rest | Fits(e) :: parse(CommaEntry(e) + rest) == Next(rest, e)
    ensures ParseEntries(parse, Tail(es) + "]", max) == Cut(es, max)
    decreases |es|
  {
    if es != [] {
      TailFront(es);
      if max > 0 { TailReadsBack(parse, es[1..], max - 1); }
      FirstReadsBack(parse, Tail(es) + "]", Tail(es[1..]) + "]", es, max);
    }
  }

  lemma CommaReadsBack(e: Entry, rest: string)
    requires Fits(e)
    ensures ParseEntry(StrToUll, CommaEntry(e) + rest) == Next(rest, e)
    ensures ParseEntry(StrToUll, EntryText(e) + rest) == Next(rest, e)
  {
    var t := "[" + (Decimal(e.epoch) + ("," + (Decimal(e.value) + ("]" + rest))));
    assert EntryText(e) + rest == t;
    assert CommaEntry(e) + rest == "," + t;
    SkipOneComma(t);
    EntryReadsBack(e, rest, "," + t);
    EntryReadsBack(e, rest, t);
  }

  /** The same for a list that starts without a comma. */
  lemma ListReadsBack(parse: string -> Parsed, es: seq<Entry>, max: nat, s: string, rest: string)
    requires es != [] && forall i | 0 <= i < |es| :: Fits(es[i])
    requires forall e, rest | Fits(e) :: parse(CommaEntry(e) + rest) == Next(rest, e)
    requires s != [] && s[0] == '[' && rest == Tail(es[1..]) + "]" && parse(s) == Next(rest, es[0])
    ensures ParseEntries(parse, s, max) == Cut(es, max)
  {
    if max > 0 { TailReadsBack(parse, es[1..], max - 1); }
    FirstReadsBack(parse, s, rest, es, max);
  }

  lemma TextFromFront(es: seq<Entry>)
    requires es != []
    ensures Text(es) != [] && Text(es)[0] == '['
    ensures Text(es)[1..] == EntryText(es[0]) + (Tail(es[1..]) + "]")
  {
    BodyFromFront(es);
    Assoc(EntryText(es[0]), Tail(es[1..]), "]");
    assert Text(es) == "[" + (Body(es) + "]");
  }

  /** Writing and parsing gives back the same entries, up to the parser's limit. */
  lemma RoundTrip(es: seq<Entry>, max: nat)
    requires es != [] && forall i | 0 <= i < |es| :: Fits(es[i])
    ensures ParseHistory(StrToUll, Text(es), max) == Cut(es, max)
  {
    forall e, rest | Fits(e)
      ensures ParseEntry(StrToUll, CommaEntry(e) + rest) == Next(rest, e)
    {
      CommaReadsBack(e, rest);
    }
    var rest := Tail(es[1..]) + "]";
    TextFromFront(es);
    CommaReadsBack(es[0], rest);
    assert Text(es)[1..][0] == EntryText(es[0])[0];
    ListReadsBack(EntryParser(StrToUll), es, max, Text(es)[1..], rest);
  }

  // ---------------------------------------------------------------------------------------
  // White space

  /** Blanks, tabs, newlines and carriage returns. */
  predicate IsGap(s: string) { forall i | 0 <= i < |s| :: s[i] in {' ', '\t', '\n', '\r'} }

  /** The white space before and after an entry's comma, and around its numbers. */
  datatype Gaps = Gaps(beforeComma: string, beforeOpen: string, beforeEpoch: string, afterEpoch: string,
      beforeValue: string, afterValue: string)

  predicate AreGaps(g: Gaps) {
    && IsGap(g.beforeComma) && IsGap(g.beforeOpen) && IsGap(g.beforeEpoch) && IsGap(g.afterEpoch)
    && IsGap(g.beforeValue) && IsGap(g.afterValue)
  }

  function ValueText(e: Entry, g: Gaps, rest: string): string { Decimal(e.value) + (g.afterValue + ("]" + rest)) }

  function AfterEpoch(e: Entry, g: Gaps, rest: string): string {
    g.afterEpoch + ("," + (g.beforeValue + ValueText(e, g, rest)))
  }

  function FieldsText(e: Entry, g: Gaps, rest: string): string {
    g.beforeEpoch + (Decimal(e.epoch) + AfterEpoch(e, g, rest))
  }

  /** An entry in front of the rest, in any white space. */
  function SpacedEntry(e: Entry, g: Gaps, rest: string): string { g.beforeOpen + ("[" + FieldsText(e, g, rest)) }

  function SpacedNext(e: Entry, g: Gaps, rest: string): string { g.beforeComma + ("," + SpacedEntry(e, g, rest)) }

  /** The entries after the first, in any white space, and the end of the array. */
  function SpacedTail(es: seq<Entry>, gs: seq<Gaps>, end: string): string
    requires |es| == |gs|
  {
    if es == [] then end else SpacedNext(es[0], gs[0], SpacedTail(es[1..], gs[1..], end))
  }

  lemma {:induction false} SkipGap(g: string, s: string)
    requires IsGap(g) && s != [] && !IsJsonSpace(s[0])
    ensures SkipSpace(g + s) == s
  {
    if g == [] {
      assert g + s == s;
    } else {
      assert (g + s)[1..] == g[1..] + s;
      SkipGap(g[1..], s);
    }
  }

  lemma ReadsSpaced(g: string, n: nat, rest: string)
    requires IsGap(g) && n < WORD && (rest == [] || !IsDigit(rest[0]))
    ensures StrToUll(g + (Decimal(n) + rest)) == (rest, n)
  {
    var s := Decimal(n) + rest;
    assert s[0] == Decimal(n)[0];
    SkipLeadingSpace(g, s);
    SkipLeadingSpace("", s);
    assert "" + s == s;
    ReadsBack(n, rest);
  }

  /** White space, a comma if there is one, and white space again. */
  lemma SkipSpacedComma(g: string, h: string, s: string)
    requires IsGap(g) && IsGap(h) && s != [] && !IsJsonSpace(s[0]) && s[0] != ','
    ensures SkipSpace(DropIf(SkipSpace(g + ("," + (h + s))), ',')) == s
    ensures SkipSpace(DropIf(SkipSpace(h + s), ',')) == s
  {
    SkipGap(g, "," + (h + s));
    assert ("," + (h + s))[1..] == h + s;
    SkipGap(h, s);
    SkipGap("", s);
    assert "" + s == s;
  }

  lemma ClosesSpaced(g: string, rest: string)
    requires IsGap(g)
    ensures DropIf(SkipSpace(g + ("]" + rest)), ']') == rest
  {
    SkipGap(g, "]" + rest);
    assert ("]" + rest)[1..] == rest;
  }

  lemma SpacedFields(e: Entry, g: Gaps, rest: string)
    requires Fits(e) && AreGaps(g)
    ensures StrToUll(FieldsText(e, g, rest)) == (AfterEpoch(e, g, rest), e.epoch)
    ensures SkipSpace(DropIf(SkipSpace(AfterEpoch(e, g, rest)), ',')) == ValueText(e, g, rest)
    ensures StrToUll(ValueText(e, g, rest)) == (g.afterValue + ("]" + rest), e.value)
  {
    var v := ValueText(e, g, rest);
    assert v[0] == Decimal(e.value)[0];
    assert AfterEpoch(e, g, rest)[0] == if g.afterEpoch == [] then ',' else g.afterEpoch[0];
    assert (g.afterValue + ("]" + rest))[0] == if g.afterValue == [] then ']' else g.afterValue[0];
    ReadsSpaced(g.beforeEpoch, e.epoch, AfterEpoch(e, g, rest));
    SkipSpacedComma(g.afterEpoch, g.beforeValue, v);
    ReadsBack(e.value, g.afterValue + ("]" + rest));
  }

  lemma SpacedReadsBack(e: Entry, g: Gaps, rest: string)
    requires Fits(e) && AreGaps(g)
    ensures ParseEntry(StrToUll, SpacedEntry(e, g, rest)) == Next(rest, e)
    ensures ParseEntry(StrToUll, SpacedNext(e, g, rest)) == Next(rest, e)
  {
    var t := "[" + FieldsText(e, g, rest);
    assert t[1..] == FieldsText(e, g, rest);
    SkipSpacedComma(g.beforeComma, g.beforeOpen, t);
    SpacedFields(e, g, rest);
    ClosesSpaced(g.afterValue, rest);
  }

  /** Where the array ends, in any white space, nothing more is parsed. */
  lemma EndStops(parse: string -> Parsed, gap: string, after: string, max: nat)
    requires IsGap(gap) && forall s :: parse(s) == ParseEntry(StrToUll, s)
    ensures ParseEntries(parse, gap + ("]" + after), max) == []
  {
    var s := gap + ("]" + after);
    if gap == [] {
      assert s == "]" + after;
    } else {
      SkipSpacedComma("", gap, "]" + after);
      assert parse(s) == Stop;
    }
  }

  lemma {:induction false} SpacedTailReadsBack(parse: string -> Parsed, es: seq<Entry>, gs: seq<Gaps>, end: string,
                                              max: nat)
    requires |es| == |gs| && forall i | 0 <= i < |es| :: Fits(es[i]) && AreGaps(gs[i])
    requires forall e, g, rest | Fits(e) && AreGaps(g) :: parse(SpacedNext(e, g, rest)) == Next(rest, e)
    requires forall m: nat :: ParseEntries(parse, end, m) == []
    ensures ParseEntries(parse, SpacedTail(es, gs, end), max) == Cut(es, max)
    decreases |es|
  {
    if es != [] {
      var rest := SpacedTail(es[1..], gs[1..], end);
      var s := SpacedNext(es[0], gs[0], rest);
      assert s[0] == if gs[0].beforeComma == [] then ',' else gs[0].beforeComma[0];
      if max > 0 { SpacedTailReadsBack(parse, es[1..], gs[1..], end, max - 1); }
      FirstReadsBack(parse, s, rest, es, max);
    }
  }

  /** A history laid out with any white space between its tokens, and anything behind it, is parsed the same. */
  lemma SpacedRoundTrip(es: seq<Entry>, gs: seq<Gaps>, gap: string, after: string, max: nat)
    requires es != [] && |es| == |gs| && IsGap(gap)
    requires forall i | 0 <= i < |es| :: Fits(es[i]) && AreGaps(gs[i])
    ensures var rest := SpacedTail(es[1..], gs[1..], gap + ("]" + after));
      ParseHistory(StrToUll, "[" + SpacedEntry(es[0], gs[0], rest), max) == Cut(es, max)
  {
    var end := gap + ("]" + after);
    var s := SpacedEntry(es[0], gs[0], SpacedTail(es[1..], gs[1..], end));
    SpacedParses(EntryParser(StrToUll), es, gs, gap, after, max);
    assert ("[" + s)[0] == '[' && ("[" + s)[1..] == s;
  }

  lemma SpacedParses(parse: string -> Parsed, es: seq<Entry>, gs: seq<Gaps>, gap: string, after: string, max: nat)
    requires es != [] && |es| == |gs| && IsGap(gap) && forall s :: parse(s) == ParseEntry(StrToUll, s)
    requires forall i | 0 <= i < |es| :: Fits(es[i]) && AreGaps(gs[i])
    ensures var rest := SpacedTail(es[1..], gs[1..], gap + ("]" + after));
      ParseEntries(parse, SpacedEntry(es[0], gs[0], rest), max) == Cut(es, max)
  {
    var end := gap + ("]" + after);
    var rest := SpacedTail(es[1..], gs[1..], end);
    assert parse(SpacedEntry(es[0], gs[0], rest)) == Next(rest, es[0]) by { SpacedReadsBack(es[0], gs[0], rest); }
    if max > 0 { SpacedRestParses(parse, es[1..], gs[1..], gap, after, max - 1); }
    SpacedList(parse, es, gs[0], rest, max);
  }

  lemma SpacedRestParses(parse: string -> Parsed, es: seq<Entry>, gs: seq<Gaps>, gap: string, after: string, max: nat)
    requires |es| == |gs| && IsGap(gap) && forall s :: parse(s) == ParseEntry(StrToUll, s)
    requires forall i | 0 <= i < |es| :: Fits(es[i]) && AreGaps(gs[i])
    ensures ParseEntries(parse, SpacedTail(es, gs, gap + ("]" + after)), max) == Cut(es, max)
  {
    var end := gap + ("]" + after);
    forall e, g, rest | Fits(e) && AreGaps(g) ensures parse(SpacedNext(e, g, rest)) == Next(rest, e) {
      SpacedReadsBack(e, g, rest);
    }
    forall m: nat ensures ParseEntries(parse, end, m) == [] { EndStops(parse, gap, after, m); }
    SpacedTailReadsBack(parse, es, gs, end, max);
  }

  lemma SpacedList(parse: string -> Parsed, es: seq<Entry>, g: Gaps, rest: string, max: nat)
    requires es != [] && parse(SpacedEntry(es[0], g, rest)) == Next(rest, es[0]) && IsGap(g.beforeOpen)
    requires max > 0 ==> ParseEntries(parse, rest, max - 1) == Cut(es[1..], max - 1)
    ensures ParseEntries(parse, SpacedEntry(es[0], g, rest), max) == Cut(es, max)
  {
    var s := SpacedEntry(es[0], g, rest);
    assert s[0] == if g.beforeOpen == [] then '[' else g.beforeOpen[0];
    FirstReadsBack(parse, s, rest, es, max);
  }
}
