/** The names that the runtime record file defines, against the names that the
    static merge keeps free for it. */
module RoleOwners {
  import opened Wrappers
  import opened Text
  import opened Sequences
  import opened Dns
  import opened RoleDns
  import opened StaticRecords
  import opened StaticProperties
  import opened StaticOwners
  import opened StaticCase

  /** A CNAME record of a zone file: owner, TTL and target. */
  datatype Alias = Alias(owner: string, ttl: string, target: string)

  /** The alias that a line defines, if it defines one. */
  function LineAlias(line: string): seq<Alias> {
    if line == "" || line[0] == ';' then [] else
    var fields := Split(line, ' ');
    if |fields| == 5 then [Alias(fields[0], fields[1], fields[4])] else []
  }

  function AliasesIn(text: string): seq<Alias> {
    FlatMap(Split(text, '\n'), LineAlias)
  }

  lemma {:induction false} NothingStrippedIn(name: string, c: char)
    requires c !in name
    ensures c !in RstripDots(name)
  {
    if name != "" && name[|name| - 1] == '.' {
      NothingStrippedIn(name[..|name| - 1], c);
    }
  }

  lemma FiveFields(a: string, b: string, c: string, d: string, e: string)
    requires ' ' !in a && ' ' !in b && ' ' !in c && ' ' !in d && ' ' !in e
    ensures Split(a + " " + (b + " " + (c + " " + (d + " " + e))), ' ') == [a, b, c, d, e]
  {
    hide Split;
    SplitPart(e, "", ' ');
    SplitPart(d, e, ' ');
    SplitPart(c, d + " " + e, ' ');
    SplitPart(b, c + " " + (d + " " + e), ' ');
    SplitPart(a, b + " " + (c + " " + (d + " " + e)), ' ');
  }

  /** A name that a line of the record file can hold. */
  predicate OneField(name: string) {
    ' ' !in name && '\n' !in name
  }

  lemma AliasOfLine(alias: string, ttl: nat, target: string) returns (line: string)
    requires alias != "" && alias[0] != ';' && OneField(alias) && OneField(target)
    ensures AliasLine(alias, ttl, target) == line + "\n" && '\n' !in line
    ensures LineAlias(line) == [Alias(alias, Decimal(ttl), RstripDots(target) + ".")]
  {
    hide Split, Decimal, RstripDots;
    var number, name := Decimal(ttl), RstripDots(target) + ".";
    line := alias + " " + (number + " " + ("IN" + " " + ("CNAME" + " " + name)));
    assert IsNumeral(number) && '\n' !in DIGITS && ' ' !in DIGITS;
    NothingStrippedIn(target, '\n');
    NothingStrippedIn(target, ' ');
    FiveFields(alias, number, "IN", "CNAME", name);
    assert " IN CNAME " == " " + "IN" + " " + "CNAME" + " ";
    assert AliasLine(alias, ttl, target) == line + "\n";
    assert line[0] == alias[0];
  }

  lemma CommentParts()
    ensures COMMENT == "; Managed from MySQL " + "InnoDB ReplicaSet " + "runtime status."
  {
  }

  lemma CommentIsNoAlias()
    ensures '\n' !in COMMENT && LineAlias(COMMENT) == []
  {
    hide Split, COMMENT;
    var x, y, z := "; Managed from MySQL ", "InnoDB ReplicaSet ", "runtime status.";
    CommentParts();
    assert COMMENT == x + y + z && x[0] == ';';
    assert '\n' !in x && '\n' !in y && '\n' !in z;
  }

  /** One more line in front of a text. */
  lemma LineFirst(line: string, text: string)
    requires '\n' !in line
    ensures AliasesIn(line + "\n" + text) == LineAlias(line) + AliasesIn(text)
  {
    hide Split;
    SplitPart(line, text, '\n');
    assert ([line] + Split(text, '\n'))[1..] == Split(text, '\n');
  }

  lemma NothingThere()
    ensures AliasesIn("") == []
  {
  }

  /** The record file makes the primary alias stand for the primary and, when
      there is a secondary, the replica alias for the secondary, each name ending
      in exactly one dot; and these are reserved names of the runtime zone. */
  lemma RoleRecordsAreTheReserved(primary: string, secondary: string, ttl: nat, zone: string)
    requires OneField(primary) && OneField(secondary)
    ensures AliasesIn(RoleRecords(primary, secondary, ttl)) ==
            [Alias(PRIMARY_ALIAS, Decimal(ttl), RstripDots(primary) + ".")]
            + if secondary != "" then [Alias(REPLICA_ALIAS, Decimal(ttl), RstripDots(secondary) + ".")] else []
    ensures RuntimeOwners(zone) == {PRIMARY_ALIAS + "." + zone, REPLICA_ALIAS + "." + zone}
    ensures PRIMARY_ALIAS != REPLICA_ALIAS
  {
    hide AliasesIn, LineAlias, AliasLine, COMMENT, Decimal, RstripDots;
    CommentIsNoAlias();
    PlainAliases();
    var first := AliasOfLine(PRIMARY_ALIAS, ttl, primary);
    NothingThere();
    if secondary == "" {
      assert RoleRecords(primary, secondary, ttl) == COMMENT + "\n" + (first + "\n" + "");
      LineFirst(COMMENT, first + "\n" + "");
      LineFirst(first, "");
    } else {
      var second := AliasOfLine(REPLICA_ALIAS, ttl, secondary);
      assert RoleRecords(primary, secondary, ttl) == COMMENT + "\n" + (first + "\n" + (second + "\n" + ""));
      LineFirst(COMMENT, first + "\n" + (second + "\n" + ""));
      LineFirst(first, second + "\n" + "");
      LineFirst(second, "");
    }
    ReservedNames(zone);
  }

  lemma PlainAliases()
    ensures PRIMARY_ALIAS != "" && PRIMARY_ALIAS[0] != ';' && ' ' !in PRIMARY_ALIAS && '\n' !in PRIMARY_ALIAS
    ensures REPLICA_ALIAS != "" && REPLICA_ALIAS[0] != ';' && ' ' !in REPLICA_ALIAS && '\n' !in REPLICA_ALIAS
    ensures PRIMARY_ALIAS != REPLICA_ALIAS
  {
    assert PRIMARY_ALIAS[13] == 'p' && REPLICA_ALIAS[13] == 'r';
  }

  lemma ReservedNames(zone: string)
    ensures RuntimeOwners(zone) == {PRIMARY_ALIAS + "." + zone, REPLICA_ALIAS + "." + zone}
  {
    assert PRIMARY_ALIAS + "." == "mysql-shared-primary.";
    assert REPLICA_ALIAS + "." == "mysql-shared-replica.";
  }

  /** Claims match rendering, runtime records included: with lower-case zone names
      and plain types, over all rendered managed zones and the record file of the runtime zone,
      every DNS name besides SOA and NS is defined once, and no alias of a managed
      zone stands beside a zone's SOA and NS. */
  lemma EveryOwnerIsDefinedOnce(inp: Input, primary: string, secondary: string, ttl: nat)
    requires Accepted(inp) && Renderable(inp) && LowerZones(inp) && PlainTypes(inp)
    requires OneField(primary) && OneField(secondary)
    ensures DefinedOnce(inp)
    ensures var rendered := FlatMap(Output(inp), RenderedIn(inp.hosts));
            var zone := DnsName(RstripDots(inp.runtimeZone)).value;
            var runtime := AliasesIn(RoleRecords(primary, secondary, ttl));
            && (forall i, j | 0 <= i < j < |runtime| :: runtime[i].owner != runtime[j].owner)
            && forall c, r | c in rendered && r in runtime :: TrueOwner(c) != Ok(r.owner + "." + zone)
  {
    hide Accepted, Renderable, RenderedIn, AliasesIn, RoleRecords, RuntimeOwners, Output, TrueOwner, FlatMap, ByName;
    hide Decimal, RstripDots, Lower;
    RenderedOwnersAreDistinct(inp);
    RoleRecordsAreTheReserved(primary, secondary, ttl, DnsName(RstripDots(inp.runtimeZone)).value);
  }
}
