/** DNS names, records and zones, as the static record filter and the zone
    template handle them. */
module Dns {
  import opened Wrappers
  import opened Text
  import opened Sequences

  // ----- names -----

  predicate IsAlphanumeric(c: char) {
    'A' <= c <= 'Z' || 'a' <= c <= 'z' || '0' <= c <= '9'
  }

  /** [a-zA-Z0-9](?:[a-zA-Z0-9-]{0,61}[a-zA-Z0-9])?\Z */
  predicate IsLabel(s: string) {
    && 1 <= |s| <= 63
    && IsAlphanumeric(s[0]) && IsAlphanumeric(s[|s| - 1])
    && forall i | 0 <= i < |s| :: IsAlphanumeric(s[i]) || s[i] == '-'
  }

  function LowerChar(c: char): char {
    if 'A' <= c <= 'Z' then ((c as int) + 32) as char else c
  }

  function Lower(s: string): string {
    if s == "" then "" else [LowerChar(s[0])] + Lower(s[1..])
  }

  predicate IsName(name: string) {
    |name| <= 253 && forall i | 0 <= i < |Split(name, '.')| :: IsLabel(Split(name, '.')[i])
  }

  /** _dns_name for a relative name. */
  function DnsName(value: string): Result<string> {
    if IsName(value) then Ok(Lower(value)) else Err(InvalidName)
  }

  /** _dns_name for an absolute name, which ends in a dot. */
  function AbsoluteName(value: string): Result<string> {
    if value == "" || value[|value| - 1] != '.' then Err(InvalidName)
    else DnsName(value[..|value| - 1])
  }

  lemma {:induction false} LowerAppend(a: string, b: string)
    ensures Lower(a + b) == Lower(a) + Lower(b)
  {
    if a == "" {
      assert a + b == b;
    } else {
      assert (a + b)[1..] == a[1..] + b;
      LowerAppend(a[1..], b);
    }
  }

  lemma {:induction false} LowerIsIdempotent(s: string)
    ensures Lower(Lower(s)) == Lower(s) && |Lower(s)| == |s|
  {
    if s != "" {
      LowerIsIdempotent(s[1..]);
    }
  }

  lemma {:induction false} LowerWithoutCapitals(s: string)
    requires forall i | 0 <= i < |s| :: !('A' <= s[i] <= 'Z')
    ensures Lower(s) == s
  {
    if s != "" {
      LowerWithoutCapitals(s[1..]);
      assert s == [s[0]] + s[1..];
    }
  }

  lemma {:induction false} LowerAt(s: string)
    ensures |Lower(s)| == |s| && forall i | 0 <= i < |s| :: Lower(s)[i] == LowerChar(s[i])
  {
    if s != "" {
      LowerAt(s[1..]);
    }
  }

  lemma {:induction false} SplitOfLower(s: string)
    ensures Split(Lower(s), '.') == Map(Split(s, '.'), Lower)
  {
    if s == "" {
      assert [""][1..] == [];
    } else {
      var c, rest := s[0], s[1..];
      SplitOfLower(rest);
      assert Lower(s)[1..] == Lower(rest) && Lower(s)[0] == LowerChar(c);
      var parts := Split(rest, '.');
      assert Map(parts, Lower) == [Lower(parts[0])] + Map(parts[1..], Lower);
      if c == '.' {
        assert ([""] + parts)[1..] == parts;
      } else {
        var first := [c] + parts[0];
        assert first[0] == c && first[1..] == parts[0];
        assert Lower(first) == [LowerChar(c)] + Lower(parts[0]);
        assert ([first] + parts[1..])[1..] == parts[1..];
      }
    }
  }

  /** A name is a name in any case. */
  lemma NameInAnyCase(name: string)
    ensures IsName(Lower(name)) <==> IsName(name)
  {
    hide Split, Lower;
    LowerAt(name);
    SplitOfLower(name);
    var labels := Split(name, '.');
    MapAt(labels, Lower);
    forall i | 0 <= i < |labels|
      ensures IsLabel(Lower(labels[i])) <==> IsLabel(labels[i])
    {
      LabelInAnyCase(labels[i]);
    }
  }

  lemma LabelInAnyCase(part: string)
    ensures IsLabel(Lower(part)) <==> IsLabel(part)
  {
    hide Lower;
    LowerAt(part);
    assert forall i | 0 <= i < |part| :: Lower(part)[i] == LowerChar(part[i]);
  }

  /** No line break in a name, since there is none in a label. */
  lemma NameHasNoBreak(name: string)
    requires IsName(name)
    ensures '\n' !in name
  {
    var labels := Split(name, '.');
    forall i | 0 <= i < |labels|
      ensures '\n' !in labels[i]
    {
      NoDotInLabel(labels[i]);
    }
    if '\n' in name {
      var k := PartWith(name, '.', '\n');
    }
  }

  /** A relative name under a zone. */
  lemma NameUnder(part: string, name: string)
    requires IsLabel(part) && IsName(name) && |part| + 1 + |name| <= 253
    ensures IsName(part + "." + name)
  {
    hide Split;
    NoDotInLabel(part);
    SplitPart(part, name, '.');
    var labels := Split(part + "." + name, '.');
    forall i | 0 <= i < |labels|
      ensures IsLabel(labels[i])
    {
      if i > 0 {
        assert labels[i] == Split(name, '.')[i - 1];
      }
    }
  }

  lemma NoDotInLabel(part: string)
    requires IsLabel(part)
    ensures '.' !in part && '\n' !in part
  {
  }

  // ----- IPv4 addresses in text -----

  predicate IsOctet(s: string) {
    IsNumeral(s) && |s| <= 3 && (s[0] == '0' ==> |s| == 1) && Number(s) <= 255
  }

  /** IPv4Address(value) accepts the text; str() of the address is the text again. */
  predicate IsIpv4(value: string) {
    |Split(value, '.')| == 4 && forall i | 0 <= i < 4 :: IsOctet(Split(value, '.')[i])
  }

  const ARPA: string := ".in-addr.arpa"

  /** The reverse name of a /24, from the first three octets. */
  function ReverseZoneName(a: string, b: string, c: string): string {
    c + "." + b + "." + a + ARPA
  }

  lemma ReverseNameParts(a: string, b: string, c: string)
    ensures ReverseZoneName(a, b, c) == c + "." + (b + "." + (a + "." + ARPA[1..]))
  {
    var tail := ARPA[1..];
    assert ARPA == "." + tail;
    assert c + "." + b + "." + a + ("." + tail) == c + "." + (b + "." + (a + "." + tail));
  }

  lemma ReverseNameLabels(a: string, b: string, c: string)
    requires '.' !in a && '.' !in b && '.' !in c
    ensures Split(ReverseZoneName(a, b, c), '.') == [c, b, a] + Split(ARPA[1..], '.')
  {
    hide Split, ReverseZoneName;
    var tail := ARPA[1..];
    ReverseNameParts(a, b, c);
    SplitPart(a, tail, '.');
    SplitPart(b, a + "." + tail, '.');
    SplitPart(c, b + "." + (a + "." + tail), '.');
  }

  // ----- records and zones -----

  /** The record types that the program writes itself; a configured record may
      have any text for its type. */
  const A: string := "A"
  const CNAME: string := "CNAME"
  const PTR: string := "PTR"

  /** The type that DNS reads in a text: by its name, without case, or by its
      number (section 5 of RFC 3597). */
  predicate ReadsAs(kind: string, name: string, code: nat) {
    Lower(kind) == name
    || (|kind| > 4 && Lower(kind[..4]) == "type" && IsNumeral(kind[4..]) && Number(kind[4..]) == code)
  }

  predicate IsAlias(kind: string) {
    ReadsAs(kind, "cname", 5)
  }

  lemma WrittenKinds()
    ensures IsAlias(CNAME) && !IsAlias(A) && !IsAlias(PTR)
    ensures A != CNAME && PTR != CNAME && A != PTR
  {
    LowerAt(A);
    LowerAt(PTR);
    assert Lower(CNAME) == "cname" by {
      LowerAt(CNAME);
    }
  }

  datatype Record = Record(name: string, kind: string, value: string, ttl: Option<int>)

  datatype Mode = NoInventory | ServerIdentity | AccessAliases | ReversePtr

  datatype Zone = Zone(name: string, managed: bool, mode: Mode, records: seq<Record>)

  datatype Host = Host(fqdn: string, address: string, aliases: seq<string>)

  datatype StaticRecord = StaticRecord(name: string, kind: string, value: string, ttl: Option<int>, ptr: bool)

  // ----- the sort of one zone -----

  /** (record["name"].lower(), record["type"], record["value"]) */
  predicate RecordLe(r: Record, s: Record) {
    var x, y := Lower(r.name), Lower(s.name);
    if x != y then StringLe(x, y)
    else if r.kind != s.kind then StringLe(r.kind, s.kind)
    else StringLe(r.value, s.value)
  }

  predicate Sorted(s: seq<Record>) {
    forall i, j | 0 <= i < j < |s| :: RecordLe(s[i], s[j])
  }

  function InsertRecord(s: seq<Record>, r: Record): seq<Record> {
    if s == [] then [r]
    else if !RecordLe(s[|s| - 1], r) then InsertRecord(s[..|s| - 1], r) + [s[|s| - 1]]
    else s + [r]
  }

  /** records.sort(key=...) */
  function SortRecords(s: seq<Record>): seq<Record> {
    if s == [] then [] else InsertRecord(SortRecords(s[..|s| - 1]), s[|s| - 1])
  }
}
