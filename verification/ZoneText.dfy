/** The SOA serial line of a zone file, as located, edited and normalised by
    update-mysql-role-dns.py and, separately, by the soa_serial.py filter. */
module ZoneText {
  import opened Wrappers
  import opened Text
  import opened Ring

  // ----- one line: the regular expression SERIAL_PATTERN -----

  datatype SerialLine = SerialLine(indent: string, value: string, suffix: string)

  const WORD: string := "serial"

  /** [ \t]*;[ \t]*serial[ \t]*$ */
  predicate IsSuffix(s: string) {
    var t := Drop(s, BLANKS);
    t != "" && t[0] == ';' && IsWord(Drop(t[1..], BLANKS))
  }

  predicate IsWord(u: string) {
    |u| >= 6 && u[..6] == WORD && Drop(u[6..], BLANKS) == ""
  }

  /** A match of the whole line, computed left to right without backtracking. */
  function ParseLine(line: string): Option<SerialLine> {
    ParseValue(Take(line, BLANKS), Drop(line, BLANKS))
  }

  function ParseValue(indent: string, rest: string): Option<SerialLine> {
    var value, suffix := Take(rest, DIGITS), Drop(rest, DIGITS);
    if value != "" && IsSuffix(suffix) then Some(SerialLine(indent, value, suffix)) else None
  }

  /** The text of a serial line, with any middle. */
  function Line(indent: string, middle: string, suffix: string): string {
    indent + (middle + suffix)
  }

  /** What the regular expression says: some way to cut the line up. */
  ghost predicate MatchesPattern(line: string, m: SerialLine) {
    && line == Line(m.indent, m.value, m.suffix)
    && Over(m.indent, BLANKS) && IsNumeral(m.value)
    && exists b1, b2, b3 :: SuffixPattern(m.suffix, b1, b2, b3)
  }

  ghost predicate SuffixPattern(s: string, b1: string, b2: string, b3: string) {
    s == b1 + (";" + (b2 + (WORD + b3))) && Over(b1, BLANKS) && Over(b2, BLANKS) && Over(b3, BLANKS)
  }

  lemma SuffixParses(s: string, b1: string, b2: string, b3: string)
    requires SuffixPattern(s, b1, b2, b3)
    ensures IsSuffix(s) && s[0] !in DIGITS
  {
    var u := WORD + b3;
    var t := ";" + (b2 + u);
    TakeDropOf(b1, t, BLANKS);
    assert t[1..] == b2 + u;
    assert u[0] == WORD[0] == 's';
    TakeDropOf(b2, u, BLANKS);
    assert u[..6] == WORD && u[6..] == b3;
    assert b3 == b3 + "";
    TakeDropOf(b3, "", BLANKS);
    assert s[0] == if b1 == "" then ';' else b1[0];
  }

  lemma SuffixHasParts(s: string) returns (b1: string, b2: string, b3: string)
    requires IsSuffix(s)
    ensures SuffixPattern(s, b1, b2, b3)
  {
    var t := Drop(s, BLANKS);
    var u := Drop(t[1..], BLANKS);
    b1, b2, b3 := Take(s, BLANKS), Take(t[1..], BLANKS), u[6..];
    TakeDrop(s, BLANKS);
    TakeDrop(t[1..], BLANKS);
    TakeDrop(b3, BLANKS);
    assert u == WORD + b3;
    assert t == ";" + (b2 + u);
    assert b3 == Take(b3, BLANKS);
  }

  lemma ParsedParts(line: string)
    requires ParseLine(line).Some?
    ensures var m := ParseLine(line).value;
            && line == Line(m.indent, m.value, m.suffix)
            && Over(m.indent, BLANKS) && IsNumeral(m.value) && IsSuffix(m.suffix)
  {
    TakeDrop(line, BLANKS);
    TakeDrop(Drop(line, BLANKS), DIGITS);
  }

  lemma PatternParses(m: SerialLine)
    requires Over(m.indent, BLANKS) && IsNumeral(m.value) && IsSuffix(m.suffix)
    ensures ParseLine(Line(m.indent, m.value, m.suffix)) == Some(m)
  {
    var b1, b2, b3 := SuffixHasParts(m.suffix);
    SuffixParses(m.suffix, b1, b2, b3);
    var t := m.value + m.suffix;
    assert t[0] == m.value[0];
    TakeDropOf(m.indent, t, BLANKS);
    TakeDropOf(m.value, m.suffix, DIGITS);
  }

  /** The left-to-right parser finds exactly the matches of the regular
      expression, so a line has at most one match. */
  lemma ParserIsThePattern(line: string, m: SerialLine)
    ensures ParseLine(line) == Some(m) <==> MatchesPattern(line, m)
  {
    if MatchesPattern(line, m) {
      var b1, b2, b3 :| SuffixPattern(m.suffix, b1, b2, b3);
      SuffixParses(m.suffix, b1, b2, b3);
      PatternParses(m);
    }
    if ParseLine(line) == Some(m) {
      ParsedParts(line);
      var b1, b2, b3 := SuffixHasParts(m.suffix);
    }
  }

  // ----- the whole text -----

  function SerialLines(lines: seq<string>): nat {
    if lines == [] then 0 else (if ParseLine(lines[0]).Some? then 1 else 0) + SerialLines(lines[1..])
  }

  function FirstSerial(lines: seq<string>): (k: nat)
    requires SerialLines(lines) > 0
    ensures k < |lines|
  {
    if ParseLine(lines[0]).Some? then 0 else 1 + FirstSerial(lines[1..])
  }

  ghost predicate NoSerialIn(lines: seq<string>) {
    forall i | 0 <= i < |lines| :: ParseLine(lines[i]).None?
  }

  lemma {:induction false} NoSerialLine(lines: seq<string>)
    ensures SerialLines(lines) == 0 <==> NoSerialIn(lines)
  {
    if lines != [] {
      NoSerialLine(lines[1..]);
      assert lines == [lines[0]] + lines[1..];
    }
  }

  /** Exactly one serial line, in terms of the lines before and after it. */
  lemma {:induction false} OneSerialLine(before: seq<string>, line: string, after: seq<string>)
    requires ParseLine(line).Some?
    ensures var lines := before + ([line] + after);
            && SerialLines(lines) > 0
            && (SerialLines(lines) == 1 <==> NoSerialIn(before) && NoSerialIn(after))
            && (SerialLines(lines) == 1 ==> FirstSerial(lines) == |before|)
  {
    var lines := before + ([line] + after);
    if before == [] {
      assert lines[1..] == after;
      NoSerialLine(after);
    } else {
      OneSerialLine(before[1..], line, after);
      assert lines[1..] == before[1..] + ([line] + after);
      assert before == [before[0]] + before[1..];
    }
  }

  lemma {:induction false} FirstSerialParses(lines: seq<string>)
    requires SerialLines(lines) > 0
    ensures ParseLine(lines[FirstSerial(lines)]).Some?
  {
    if ParseLine(lines[0]).None? {
      FirstSerialParses(lines[1..]);
    }
  }

  /** The lines around the only serial line, and its parts. */
  datatype Layout = Layout(before: seq<string>, line: SerialLine, after: seq<string>) {
    function Lines(middle: string): seq<string> {
      before + ([Line(line.indent, middle, line.suffix)] + after)
    }
  }

  function LayoutIn(lines: seq<string>): Option<Layout> {
    if SerialLines(lines) != 1 then None else
    var k := FirstSerial(lines);
    var m := ParseLine(lines[k]);
    if m.None? then None else Some(Layout(lines[..k], m.value, lines[k + 1..]))
  }

  function LayoutOf(zone: string): Option<Layout> {
    LayoutIn(Split(zone, '\n'))
  }

  /** A layout with one serial line: what LayoutOf returns. */
  ghost predicate IsLayout(y: Layout) {
    && Over(y.line.indent, BLANKS) && IsNumeral(y.line.value) && IsSuffix(y.line.suffix)
    && NoSerialIn(y.before) && NoSerialIn(y.after)
    && Free(y.Lines(y.line.value), '\n')
  }

  lemma LayoutInHolds(lines: seq<string>)
    requires SerialLines(lines) == 1 && Free(lines, '\n')
    ensures LayoutIn(lines).Some? && IsLayout(LayoutIn(lines).value)
    ensures lines == LayoutIn(lines).value.Lines(LayoutIn(lines).value.line.value)
  {
    var k := FirstSerial(lines);
    FirstSerialParses(lines);
    ParsedParts(lines[k]);
    assert lines == lines[..k] + ([lines[k]] + lines[k + 1..]);
    OneSerialLine(lines[..k], lines[k], lines[k + 1..]);
  }

  lemma LayoutHolds(zone: string)
    requires LayoutOf(zone).Some?
    ensures IsLayout(LayoutOf(zone).value)
    ensures var y := LayoutOf(zone).value;
            Split(zone, '\n') == y.Lines(y.line.value) && zone == Join(y.Lines(y.line.value), '\n')
  {
    SplitIsFree(zone, '\n');
    JoinSplit(zone, '\n');
    LayoutInHolds(Split(zone, '\n'));
  }

  /** A layout can be read back from its text. */
  lemma LayoutIsRead(y: Layout)
    requires IsLayout(y)
    ensures LayoutOf(Join(y.Lines(y.line.value), '\n')) == Some(y)
  {
    var lines := y.Lines(y.line.value);
    SplitJoin(lines, '\n');
    var line := Line(y.line.indent, y.line.value, y.line.suffix);
    PatternParses(y.line);
    OneSerialLine(y.before, line, y.after);
    assert lines[..|y.before|] == y.before && lines[|y.before| + 1..] == y.after;
    assert lines[|y.before|] == line;
  }

  lemma FreeWith(y: Layout, middle: string)
    requires Free(y.Lines(y.line.value), '\n') && '\n' !in middle
    ensures Free(y.Lines(middle), '\n')
  {
    var before, after := y.Lines(y.line.value), y.Lines(middle);
    var k := |y.before|;
    assert '\n' !in before[k];
    assert forall c | c in y.line.indent || c in y.line.suffix :: c in before[k];
    forall i | 0 <= i < |after|
      ensures '\n' !in after[i]
    {
      assert i != k ==> after[i] == before[i];
    }
  }

  /** Another numeral in the place of the serial. */
  lemma LayoutWith(y: Layout, value: string)
    requires IsLayout(y) && IsNumeral(value)
    ensures IsLayout(y.(line := y.line.(value := value)))
    ensures LayoutOf(Join(y.Lines(value), '\n')) == Some(y.(line := y.line.(value := value)))
  {
    FreeWith(y, value);
    LayoutIsRead(y.(line := y.line.(value := value)));
  }

  /** The only serial of a text and the characters around it. */
  datatype Located = Located(before: string, value: string, after: string) {
    function Fill(middle: string): string {
      before + (middle + after)
    }
  }

  function LocatedIn(y: Layout): Located {
    Located(Lead(y.before, '\n') + y.line.indent, y.line.value, y.line.suffix + Trail(y.after, '\n'))
  }

  /** list(SERIAL_PATTERN.finditer(zone)), required to have one element. */
  function Locate(zone: string): Option<Located> {
    var y := LayoutOf(zone);
    if y.None? then None else Some(LocatedIn(y.value))
  }

  /** The substitution of the match, seen on the lines. */
  lemma FillIsJoin(y: Layout, middle: string)
    ensures LocatedIn(y).Fill(middle) == Join(y.Lines(middle), '\n')
  {
    var line := Line(y.line.indent, middle, y.line.suffix);
    JoinAround(y.before, line, y.after, '\n');
    FillNests(Lead(y.before, '\n'), y.line.indent, middle, y.line.suffix, Trail(y.after, '\n'));
  }

  lemma FillNests(lead: string, indent: string, middle: string, suffix: string, trail: string)
    ensures (lead + indent) + (middle + (suffix + trail)) == lead + (Line(indent, middle, suffix) + trail)
  {
  }

  lemma LocateHasLayout(zone: string)
    requires Locate(zone).Some?
    ensures LayoutOf(zone).Some? && IsLayout(LayoutOf(zone).value)
    ensures Locate(zone).value.Fill(Locate(zone).value.value) == zone
    ensures IsNumeral(Locate(zone).value.value)
  {
    LayoutHolds(zone);
    var y := LayoutOf(zone).value;
    FillIsJoin(y, y.line.value);
  }

  /** Replacing the serial by any numeral leaves exactly one serial line, and
      every other character where it was. */
  lemma LocateEdited(zone: string, value: string)
    requires Locate(zone).Some? && IsNumeral(value)
    ensures Locate(Locate(zone).value.Fill(value)) == Some(Locate(zone).value.(value := value))
  {
    LocateHasLayout(zone);
    var y := LayoutOf(zone).value;
    LayoutWith(y, value);
    FillIsJoin(y, value);
  }

  // ----- update-mysql-role-dns.py -----

  /** int(matches[0].group("value")); a text without its one serial line raises. */
  function SerialOf(zone: string): Result<int> {
    var l := Locate(zone);
    if l.None? then Err(NotOneSerialLine) else Ok(LocatedSerial(l.value))
  }

  function LocatedSerial(l: Located): nat {
    if IsNumeral(l.value) then Number(l.value) else 0
  }

  function ReplaceSerial(zone: string, serial: int): Result<string> {
    if !(0 <= serial < MODULUS) then Err(SerialOutOfRange)
    else if Locate(zone).None? then Err(NotOneSerialLine)
    else Ok(Locate(zone).value.Fill(Decimal(serial)))
  }

  function AdvanceSerial(zone: string): Result<(int, string)> {
    if Locate(zone).None? then Err(NotOneSerialLine)
    else
      var l := Locate(zone).value;
      var following := (LocatedSerial(l) + 1) % MODULUS;
      Ok((following, l.Fill(Decimal(following))))
  }

  // ----- soa_serial.py -----

  const PLACEHOLDER: string := "__SOA_SERIAL__"

  function ZoneSerialAndNormalizedContent(content: string): Result<(int, string)> {
    if Locate(content).None? then Err(NotOneSerialLine)
    else
      var l := Locate(content).value;
      if LocatedSerial(l) >= MODULUS then Err(SerialOutOfRange)
      else Ok((LocatedSerial(l), l.Fill(PLACEHOLDER)))
  }

  /** dns_authoritative_soa_serial. */
  function SoaSerial(existing: Option<string>, desired: string, initial: int): Result<int> {
    if !(0 <= initial < MODULUS) then Err(SerialOutOfRange)
    else
      var d := ZoneSerialAndNormalizedContent(desired);
      if d.Err? then Err(d.error)
      else if existing.None? then Ok(initial)
      else
        var e := ZoneSerialAndNormalizedContent(existing.value);
        if e.Err? then Err(e.error)
        else if e.value.1 == d.value.1 then Ok(e.value.0)
        else Ok((e.value.0 + 1) % MODULUS)
  }

  // ----- properties -----

  /** A text the two programs can work on: one serial line, with a 32-bit value. */
  predicate WellFormed(zone: string) {
    SerialOf(zone).Ok? && SerialOf(zone).value < MODULUS
  }

  /** Two texts that differ in nothing but the digits of their serial. */
  ghost predicate SameContent(a: string, b: string)
    requires Locate(a).Some? && Locate(b).Some?
  {
    Locate(a).value.before == Locate(b).value.before && Locate(a).value.after == Locate(b).value.after
  }

  /** Everything in a text but the digits of its serial. */
  function Content(zone: string): Option<(string, string)> {
    var l := Locate(zone);
    if l.None? then None else Some((l.value.before, l.value.after))
  }

  /** The edit parses back to the number given, and only the digits of the
      serial change: the text is the characters before, the numeral, and the
      characters after, both before and after the edit. */
  lemma ReplaceSerialRoundTrip(zone: string, serial: int)
    requires Locate(zone).Some?
    ensures ReplaceSerial(zone, serial).Ok? <==> 0 <= serial < MODULUS
    ensures 0 <= serial < MODULUS ==>
              var edited := ReplaceSerial(zone, serial).value;
              && SerialOf(edited) == Ok(serial) && WellFormed(edited) && SameContent(edited, zone)
              && Content(edited) == Content(zone)
              && Locate(zone).value.Fill(Locate(zone).value.value) == zone
              && Locate(zone).value.Fill(Decimal(serial)) == edited
  {
    if 0 <= serial < MODULUS {
      NumberOfDecimal(serial);
      LocateHasLayout(zone);
      LocateEdited(zone, Decimal(serial));
    }
  }

  /** advance_serial is replace_serial with the next number of the ring. */
  lemma AdvanceIsReplace(zone: string)
    requires Locate(zone).Some?
    ensures AdvanceSerial(zone).Ok?
    ensures var next, text := AdvanceSerial(zone).value.0, AdvanceSerial(zone).value.1;
            ReplaceSerial(zone, next) == Ok(text) && SerialOf(text) == Ok(next)
            && next == (SerialOf(zone).value + 1) % MODULUS
  {
    ReplaceSerialRoundTrip(zone, AdvanceSerial(zone).value.0);
  }

  /** A later edit overrides an earlier one. */
  lemma LastEditWins(zone: string, first: int, second: int)
    requires Locate(zone).Some? && 0 <= first < MODULUS && 0 <= second < MODULUS
    ensures ReplaceSerial(ReplaceSerial(zone, first).value, second) == ReplaceSerial(zone, second)
  {
    ReplaceSerialRoundTrip(zone, first);
  }

  /** A serial written at run time is never mistaken for changed content: the
      rendering filter keeps whatever number the runtime updater stored. */
  lemma RuntimeEditIsKept(zone: string, serial: int, initial: int)
    requires WellFormed(zone) && 0 <= serial < MODULUS && 0 <= initial < MODULUS
    ensures SoaSerial(Some(ReplaceSerial(zone, serial).value), zone, initial) == Ok(serial)
  {
    ReplaceSerialRoundTrip(zone, serial);
  }

  /** Equal content is never a change, whatever the two serials are. */
  lemma SameContentIsKept(existing: string, desired: string, initial: int)
    requires WellFormed(existing) && WellFormed(desired) && Content(existing) == Content(desired)
    requires 0 <= initial < MODULUS
    ensures SoaSerial(Some(existing), desired, initial) == SerialOf(existing)
  {
  }

  /** Rendering the selected serial and selecting again changes nothing, and
      a runtime edit in between is kept too. */
  lemma RenderIsAFixpoint(existing: Option<string>, desired: string, initial: int, runtime: int)
    requires SoaSerial(existing, desired, initial).Ok? && 0 <= runtime < MODULUS
    ensures var rendered := ReplaceSerial(desired, SoaSerial(existing, desired, initial).value);
            && rendered.Ok?
            && SoaSerial(Some(rendered.value), desired, initial) == SoaSerial(existing, desired, initial)
            && SoaSerial(Some(ReplaceSerial(rendered.value, runtime).value), desired, initial) == Ok(runtime)
  {
    hide Locate;
    var s := SoaSerial(existing, desired, initial).value;
    RuntimeEditIsKept(desired, s, initial);
    LastEditWins(desired, s, runtime);
    RuntimeEditIsKept(desired, runtime, initial);
  }

  // ----- when the filter can tell changed content from unchanged content -----

  /** A line that reads like a normalised serial line. */
  ghost predicate IsPlaceholderLine(line: string) {
    exists indent, suffix :: PlaceholderParts(line, indent, suffix)
  }

  ghost predicate PlaceholderParts(line: string, indent: string, suffix: string) {
    line == Line(indent, PLACEHOLDER, suffix) && Over(indent, BLANKS) && IsSuffix(suffix)
  }

  ghost predicate HasPlaceholderLine(zone: string) {
    exists k | 0 <= k < |Split(zone, '\n')| :: IsPlaceholderLine(Split(zone, '\n')[k])
  }

  ghost predicate SameNormalized(a: string, b: string)
    requires Locate(a).Some? && Locate(b).Some?
  {
    Locate(a).value.Fill(PLACEHOLDER) == Locate(b).value.Fill(PLACEHOLDER)
  }

  lemma PlaceholderLineIsUnique(indent: string, suffix: string)
    requires Over(indent, BLANKS)
    ensures var line := Line(indent, PLACEHOLDER, suffix);
            && Take(line, BLANKS) == indent && Drop(line, BLANKS) == PLACEHOLDER + suffix
            && ParseLine(line).None?
  {
    assert (PLACEHOLDER + suffix)[0] == '_';
    TakeDropOf(indent, PLACEHOLDER + suffix, BLANKS);
  }

  /** The lines of the normal form. */
  lemma NormalLines(zone: string)
    requires Locate(zone).Some?
    ensures LayoutOf(zone).Some? && IsLayout(LayoutOf(zone).value)
    ensures var y := LayoutOf(zone).value;
            && Split(zone, '\n') == y.Lines(y.line.value)
            && Split(Locate(zone).value.Fill(PLACEHOLDER), '\n') == y.Lines(PLACEHOLDER)
  {
    LayoutHolds(zone);
    var y := LayoutOf(zone).value;
    FillIsJoin(y, PLACEHOLDER);
    FreeWith(y, PLACEHOLDER);
    SplitJoin(y.Lines(PLACEHOLDER), '\n');
  }

  ghost predicate SomePlaceholder(lines: seq<string>) {
    exists k | 0 <= k < |lines| :: IsPlaceholderLine(lines[k])
  }

  lemma LayoutsAgree(a: Layout, b: Layout)
    requires IsLayout(a) && IsLayout(b) && a.Lines(PLACEHOLDER) == b.Lines(PLACEHOLDER)
    requires !SomePlaceholder(a.Lines(a.line.value))
    ensures a.before == b.before && a.after == b.after
    ensures a.line.indent == b.line.indent && a.line.suffix == b.line.suffix
  {
    var n := a.Lines(PLACEHOLDER);
    var i, j := |a.before|, |b.before|;
    assert n[j] == Line(b.line.indent, PLACEHOLDER, b.line.suffix);
    assert PlaceholderParts(n[j], b.line.indent, b.line.suffix);
    assert IsPlaceholderLine(n[j]);
    assert forall k | 0 <= k < |n| && k != i :: a.Lines(a.line.value)[k] == n[k];
    assert a.before == n[..i] == b.before && a.after == n[i + 1..] == b.after;
    SamePlaceholderLine(a.line, b.line);
  }

  lemma SamePlaceholderLine(a: SerialLine, b: SerialLine)
    requires Over(a.indent, BLANKS) && Over(b.indent, BLANKS)
    requires Line(a.indent, PLACEHOLDER, a.suffix) == Line(b.indent, PLACEHOLDER, b.suffix)
    ensures a.indent == b.indent && a.suffix == b.suffix
  {
    PlaceholderLineIsUnique(a.indent, a.suffix);
    PlaceholderLineIsUnique(b.indent, b.suffix);
    assert a.suffix == (PLACEHOLDER + a.suffix)[|PLACEHOLDER|..];
    assert b.suffix == (PLACEHOLDER + b.suffix)[|PLACEHOLDER|..];
  }

  /** Equal normal forms mean equal content, unless the first text holds a
      literal placeholder line. */
  lemma NormalFormsAreFaithful(a: string, b: string)
    requires Locate(a).Some? && Locate(b).Some? && SameNormalized(a, b)
    requires !HasPlaceholderLine(a)
    ensures SameContent(a, b)
  {
    NormalLines(a);
    NormalLines(b);
    LayoutsAgree(LayoutOf(a).value, LayoutOf(b).value);
  }

  /** The serial and a placeholder change places. */
  lemma LayoutTwin(a: Layout) returns (b: Layout)
    requires IsLayout(a) && SomePlaceholder(a.Lines(a.line.value))
    ensures IsLayout(b) && b.line.value == "0"
    ensures a.Lines(PLACEHOLDER) == b.Lines(PLACEHOLDER) && |a.before| != |b.before|
  {
    var lines, n := a.Lines(a.line.value), a.Lines(PLACEHOLDER);
    var i := |a.before|;
    var j :| 0 <= j < |lines| && IsPlaceholderLine(lines[j]);
    var indent, suffix :| PlaceholderParts(lines[j], indent, suffix);
    PlaceholderLineIsUnique(indent, suffix);
    PatternParses(a.line);
    assert lines[i] == Line(a.line.indent, a.line.value, a.line.suffix);
    assert i != j && n[j] == lines[j];
    NormalHasNoSerial(a);
    FreeWith(a, PLACEHOLDER);
    b := ZeroIn(n, j, indent, suffix);
  }

  lemma ZeroIn(n: seq<string>, j: nat, indent: string, suffix: string) returns (b: Layout)
    requires j < |n| && NoSerialIn(n) && Free(n, '\n') && PlaceholderParts(n[j], indent, suffix)
    ensures IsLayout(b) && b.line.value == "0" && b.Lines(PLACEHOLDER) == n && |b.before| == j
  {
    b := Layout(n[..j], SerialLine(indent, "0", suffix), n[j + 1..]);
    assert b.Lines(PLACEHOLDER) == n;
    SwapMiddle(b, PLACEHOLDER, "0");
  }

  /** A text with a literal placeholder line has a twin with other content and
      the same normal form. */
  lemma PlaceholderTwin(a: string) returns (b: string)
    requires Locate(a).Some? && HasPlaceholderLine(a)
    ensures WellFormed(b) && SameNormalized(a, b) && !SameContent(a, b)
  {
    NormalLines(a);
    var ya := LayoutOf(a).value;
    var yb := LayoutTwin(ya);
    b := Join(yb.Lines("0"), '\n');
    LayoutIsRead(yb);
    assert Number("0") == 0 by { NumberOfDecimal(0); }
    FillIsJoin(ya, PLACEHOLDER);
    FillIsJoin(yb, PLACEHOLDER);
    if SameContent(a, b) {
      FillIsJoin(ya, "0");
      FillIsJoin(yb, "0");
      LayoutWith(ya, "0");
      assert false;
    }
  }

  lemma SwapMiddle(y: Layout, middle: string, other: string)
    requires Free(y.Lines(middle), '\n') && '\n' !in other
    ensures Free(y.Lines(other), '\n')
  {
    FreeWith(y.(line := y.line.(value := middle)), other);
  }

  lemma NormalHasNoSerial(y: Layout)
    requires IsLayout(y)
    ensures NoSerialIn(y.Lines(PLACEHOLDER))
  {
    PlaceholderLineIsUnique(y.line.indent, y.line.suffix);
    var n, k := y.Lines(PLACEHOLDER), |y.before|;
    forall i | 0 <= i < |n|
      ensures ParseLine(n[i]).None?
    {
      if i < k {
        assert n[i] == y.before[i];
      } else if i > k {
        assert n[i] == y.after[i - k - 1];
      }
    }
  }

  /** The filter bumps the serial exactly when the content changed. */
  ghost predicate DetectsChange(existing: string, desired: string, initial: int)
    requires WellFormed(existing) && WellFormed(desired)
  {
    SoaSerial(Some(existing), desired, initial) ==
      Ok(if SameContent(existing, desired) then SerialOf(existing).value
         else (SerialOf(existing).value + 1) % MODULUS)
  }

  lemma DetectsChangeByNormalForm(existing: string, desired: string, initial: int)
    requires WellFormed(existing) && WellFormed(desired) && 0 <= initial < MODULUS
    ensures DetectsChange(existing, desired, initial)
            <==> (SameContent(existing, desired) <==> SameNormalized(existing, desired))
  {
    hide LayoutOf;
    var s := SerialOf(existing).value;
    assert s != (s + 1) % MODULUS;
  }

  /** Exactly when the filter tells changed content from unchanged content for
      every desired text: the existing text has no literal placeholder line. */
  lemma BumpDetectionIsExact(existing: string, initial: int)
    requires WellFormed(existing) && 0 <= initial < MODULUS
    ensures !HasPlaceholderLine(existing) <==>
              forall desired: string | WellFormed(desired) :: DetectsChange(existing, desired, initial)
  {
    forall desired: string | WellFormed(desired) && !HasPlaceholderLine(existing)
      ensures DetectsChange(existing, desired, initial)
    {
      DetectsChangeByNormalForm(existing, desired, initial);
      if SameNormalized(existing, desired) {
        NormalFormsAreFaithful(existing, desired);
      }
    }
    if HasPlaceholderLine(existing) {
      var twin := PlaceholderTwin(existing);
      DetectsChangeByNormalForm(existing, twin, initial);
    }
  }

  // ----- $INCLUDE lines -----

  lemma {:induction false} LinesHoldNoPlaceholder(lines: seq<string>, others: seq<string>, k: nat)
    requires |lines| == |others| && k < |lines|
    requires ParseLine(lines[k]).Some? && ParseLine(others[k]).Some?
    requires forall i | 0 <= i < |lines| && i != k :: lines[i] == others[i]
    ensures SomePlaceholder(lines) <==> SomePlaceholder(others)
  {
    hide IsPlaceholderLine;
    NoPlaceholderParses(lines[k]);
    NoPlaceholderParses(others[k]);
  }

  lemma NoPlaceholderParses(line: string)
    requires ParseLine(line).Some?
    ensures !IsPlaceholderLine(line)
  {
    hide ParseLine, IsSuffix;
    if IsPlaceholderLine(line) {
      var indent, suffix :| PlaceholderParts(line, indent, suffix);
      PlaceholderLineIsUnique(indent, suffix);
    }
  }

  /** Another numeral neither makes nor removes a placeholder line. */
  lemma FillKeepsPlaceholders(zone: string, value: string)
    requires Locate(zone).Some? && IsNumeral(value)
    ensures HasPlaceholderLine(Locate(zone).value.Fill(value)) <==> HasPlaceholderLine(zone)
  {
    hide Split, ParseLine, IsSuffix, Locate, LayoutOf, IsPlaceholderLine;
    LocateIsLayout(zone);
    LayoutHolds(zone);
    var y := LayoutOf(zone).value;
    LayoutWith(y, value);
    FillIsJoin(y, value);
    var edited := Join(y.Lines(value), '\n');
    LayoutHolds(edited);
    var k := |y.before|;
    PatternParses(y.line);
    PatternParses(y.line.(value := value));
    assert y.Lines(y.line.value)[k] == Line(y.line.indent, y.line.value, y.line.suffix);
    assert y.Lines(value)[k] == Line(y.line.indent, value, y.line.suffix);
    LinesHoldNoPlaceholder(y.Lines(y.line.value), y.Lines(value), k);
  }

  /** An edit neither makes nor removes a placeholder line. */
  lemma EditKeepsPlaceholders(zone: string, serial: int)
    requires Locate(zone).Some? && 0 <= serial < MODULUS
    ensures HasPlaceholderLine(ReplaceSerial(zone, serial).value) <==> HasPlaceholderLine(zone)
  {
    hide Locate, HasPlaceholderLine;
    FillKeepsPlaceholders(zone, Decimal(serial));
  }

  /** Texts that differ only in the serial have placeholder lines both or neither. */
  lemma SameContentSamePlaceholders(a: string, b: string)
    requires Locate(a).Some? && Locate(b).Some? && Content(a) == Content(b)
    ensures HasPlaceholderLine(a) <==> HasPlaceholderLine(b)
  {
    hide Locate, HasPlaceholderLine;
    LocateHasLayout(b);
    FillKeepsPlaceholders(a, Locate(b).value.value);
    assert Locate(a).value.Fill(Locate(b).value.value) == b by {
      assert Locate(b).value.Fill(Locate(b).value.value) == b;
    }
  }

  lemma LocateIsLayout(zone: string)
    requires Locate(zone).Some?
    ensures LayoutOf(zone).Some? && Locate(zone).value == LocatedIn(LayoutOf(zone).value)
  {
    hide LayoutOf;
  }

  /** No occurrence of a one-line text that starts with '$' touches the serial
      line, so an edit neither adds nor removes one. */
  lemma EditKeepsIncludes(zone: string, serial: int, directive: string)
    requires Locate(zone).Some? && 0 <= serial < MODULUS
    requires |directive| > 0 && directive[0] == '$' && '\n' !in directive
    ensures Contains(ReplaceSerial(zone, serial).value, directive) <==> Contains(zone, directive)
  {
    var value := Locate(zone).value.value;
    LocateHasLayout(zone);
    LocateEdited(zone, Decimal(serial));
    var edited := Locate(zone).value.Fill(Decimal(serial));
    if Contains(zone, directive) {
      IncludeCarriesOver(zone, Decimal(serial), directive);
    }
    if Contains(edited, directive) {
      IncludeCarriesOver(edited, value, directive);
    }
  }

  lemma IncludeCarriesOver(zone: string, value: string, directive: string)
    requires Locate(zone).Some?
    requires |directive| > 0 && directive[0] == '$' && '\n' !in directive && Contains(zone, directive)
    ensures Contains(Locate(zone).value.Fill(value), directive)
  {
    LocateHasLayout(zone);
    var y, l := LayoutOf(zone).value, Locate(zone).value;
    var lead, indent := Lead(y.before, '\n'), y.line.indent;
    LeadEndsWithSeparator(y.before, '\n');
    Regroup(lead, indent, l.value, l.after);
    Regroup(lead, indent, value, l.after);
    TextCarriesOver(lead, indent + l.value, indent + value, l.after, directive);
  }

  lemma Regroup(a: string, b: string, c: string, d: string)
    ensures (a + b) + (c + d) == a + ((b + c) + d)
  {
  }

  lemma TextCarriesOver(lead: string, middle: string, other: string, after: string, directive: string)
    requires lead == "" || lead[|lead| - 1] == '\n'
    requires forall i | 0 <= i < |middle| :: middle[i] in BLANKS + DIGITS
    requires |directive| > 0 && directive[0] == '$' && '\n' !in directive
    requires Contains(lead + (middle + after), directive)
    ensures Contains(lead + (other + after), directive)
  {
    var zone := lead + (middle + after);
    var k :| 0 <= k <= |zone| - |directive| && OccursAt(zone, directive, k);
    OccurrenceAvoids(zone, directive, k, lead, middle, after);
    if k < |lead| {
      OccurrenceInPrefix(lead, middle + after, other + after, directive, k);
    } else {
      assert zone == (lead + middle) + after && lead + (other + after) == (lead + other) + after;
      OccurrenceInSuffix(lead + middle, lead + other, after, directive, k);
    }
  }

  /** The middle holds neither '$' nor the end of the line before it. */
  lemma OccurrenceAvoids(zone: string, directive: string, k: nat, lead: string, middle: string, after: string)
    requires zone == lead + (middle + after)
    requires lead == "" || lead[|lead| - 1] == '\n'
    requires forall i | 0 <= i < |middle| :: middle[i] in BLANKS + DIGITS
    requires |directive| > 0 && directive[0] == '$' && '\n' !in directive
    requires k <= |zone| - |directive| && OccursAt(zone, directive, k)
    ensures k + |directive| <= |lead| || k >= |lead| + |middle|
  {
    assert zone[k] == zone[k..k + |directive|][0] == '$';
    assert forall i | |lead| <= i < |lead| + |middle| :: zone[i] == middle[i - |lead|];
    assert forall i | k <= i < k + |directive| :: zone[i] == zone[k..k + |directive|][i - k] != '\n';
    assert lead != "" ==> zone[|lead| - 1] == '\n';
  }

  lemma OccurrenceInPrefix(lead: string, rest: string, other: string, part: string, k: nat)
    requires k + |part| <= |lead| && OccursAt(lead + rest, part, k)
    ensures Contains(lead + other, part)
  {
    assert (lead + other)[k..k + |part|] == lead[k..k + |part|] == (lead + rest)[k..k + |part|];
    assert OccursAt(lead + other, part, k);
  }

  lemma OccurrenceInSuffix(head: string, other: string, tail: string, part: string, k: nat)
    requires |head| <= k && k + |part| <= |head + tail| && OccursAt(head + tail, part, k)
    ensures Contains(other + tail, part)
  {
    var j := k - |head| + |other|;
    assert (other + tail)[j..j + |part|] == tail[k - |head|..k - |head| + |part|] == (head + tail)[k..k + |part|];
    assert OccursAt(other + tail, part, j);
  }
}
