// Snapshot records of a train's position and their report tokens
// (state.hpp). A token is `<line><id>-<src>` followed by `-><dest>` for a
// train on a link, `#` for one in a holding area and `%` for one on a
// platform. `names` maps a station id to its name.

module StateStrings {

  import opened Optional
  import opened Decimal

  /** status: 0 on a link, 1 in the holding area, any other value on the platform. */
  datatype State = State(line: char, id: int, srcPlatformId: int, destPlatformId: int, status: int, tick: int)

  predicate ValidSrc(s: State, names: seq<string>) {
    0 <= s.srcPlatformId < |names|
  }

  predicate ValidDest(s: State, names: seq<string>) {
    0 <= s.destPlatformId < |names|
  }

  /** The part every token shares: line, decimal train id, '-', source station. */
  function Head(s: State, names: seq<string>): string
    requires ValidSrc(s, names)
  {
    [s.line] + IntToString(s.id) + "-" + names[s.srcPlatformId]
  }

  /** Reads a run of digits and the '-' after it; returns their value and what follows. */
  function ParseUnsigned(body: string): Option<(nat, string)> {
    var k := DigitRun(body);
    if k == 0 || k == |body| || body[k] != '-' then None
    else Some((DigitsValue(body[..k]), body[k + 1..]))
  }

  /** As ParseUnsigned, after an optional minus sign. */
  function ParseSigned(s: string): Option<(int, string)> {
    if |s| >= 1 && s[0] == '-' then
      match ParseUnsigned(s[1..])
      case None => None
      case Some(p) => Some((-(p.0 as int), p.1))
    else
      match ParseUnsigned(s)
      case None => None
      case Some(p) => Some((p.0 as int, p.1))
  }

  /**
   * Reads a token's line, train id and the text after the id's '-'; None when
   * the token does not start that way. The reader is lenient: it also accepts
   * a zero-padded id such as "g01-", so a read-back fixes what a token means,
   * while the exact digits a token carries are IntToString's (no leading zero),
   * as the token functions' bodies and the example lemmas show.
   */
  function ParseHead(tok: string): Option<(char, int, string)> {
    if tok == [] then None
    else
      match ParseSigned(tok[1..])
      case None => None
      case Some(p) => Some((tok[0], p.0, p.1))
  }

  lemma UnsignedRoundTrip(m: nat, rest: string)
    ensures ParseUnsigned(NatToString(m) + "-" + rest) == Some((m, rest))
  {
    var d := NatToString(m);
    var body := d + "-" + rest;
    assert body == d + ("-" + rest);
    DigitRunOfDigits(d, "-" + rest);
    assert body[..|d|] == d;
    assert body[|d| + 1..] == rest;
    DigitsValueOfNat(m);
  }

  lemma SignedRoundTrip(n: int, rest: string)
    ensures ParseSigned(IntToString(n) + "-" + rest) == Some((n, rest))
  {
    if n < 0 {
      var d := NatToString(-n);
      assert (IntToString(n) + "-" + rest)[1..] == d + "-" + rest;
      UnsignedRoundTrip(-n, rest);
    } else {
      UnsignedRoundTrip(n, rest);
    }
  }

  /** Any text after the head is recovered, and so are the line and the id. */
  lemma HeadRoundTrip(c: char, n: int, rest: string)
    ensures ParseHead([c] + IntToString(n) + "-" + rest) == Some((c, n, rest))
  {
    assert ([c] + IntToString(n) + "-" + rest)[1..] == IntToString(n) + "-" + rest;
    SignedRoundTrip(n, rest);
  }

  /** link_state_to_string: `<line><id>-<src>-><dest>`. */
  function LinkStateToString(s: State, names: seq<string>): (r: string)
    requires ValidSrc(s, names) && ValidDest(s, names)
    ensures ParseHead(r) == Some((s.line, s.id, names[s.srcPlatformId] + "->" + names[s.destPlatformId]))
    ensures |r| >= |names[s.destPlatformId]| && r[|r| - |names[s.destPlatformId]|..] == names[s.destPlatformId]
  {
    var r := Head(s, names) + "->" + names[s.destPlatformId];
    assert r == [s.line] + IntToString(s.id) + "-" + (names[s.srcPlatformId] + "->" + names[s.destPlatformId]);
    HeadRoundTrip(s.line, s.id, names[s.srcPlatformId] + "->" + names[s.destPlatformId]);
    r
  }

  /** holding_state_to_string: `<line><id>-<src>#`; the destination is not used. */
  function HoldingStateToString(s: State, names: seq<string>): (r: string)
    requires ValidSrc(s, names)
    ensures ParseHead(r) == Some((s.line, s.id, names[s.srcPlatformId] + "#"))
    ensures r[|r| - 1] == '#'
  {
    var r := Head(s, names) + "#";
    assert r == [s.line] + IntToString(s.id) + "-" + (names[s.srcPlatformId] + "#");
    HeadRoundTrip(s.line, s.id, names[s.srcPlatformId] + "#");
    r
  }

  /** platform_state_to_string: `<line><id>-<src>%`; the destination is not used. */
  function PlatformStateToString(s: State, names: seq<string>): (r: string)
    requires ValidSrc(s, names)
    ensures ParseHead(r) == Some((s.line, s.id, names[s.srcPlatformId] + "%"))
    ensures r[|r| - 1] == '%'
  {
    var r := Head(s, names) + "%";
    assert r == [s.line] + IntToString(s.id) + "-" + (names[s.srcPlatformId] + "%");
    HeadRoundTrip(s.line, s.id, names[s.srcPlatformId] + "%");
    r
  }

  /** state_to_string: dispatch on the status field. */
  function StateToString(s: State, names: seq<string>): (r: string)
    requires ValidSrc(s, names)
    requires s.status == 0 ==> ValidDest(s, names)
    ensures s.status == 0 ==> r == LinkStateToString(s, names)
    ensures s.status == 1 ==> r == HoldingStateToString(s, names)
    ensures s.status != 0 && s.status != 1 ==> r == PlatformStateToString(s, names)
  {
    if s.status == 0 then LinkStateToString(s, names)
    else if s.status == 1 then HoldingStateToString(s, names)
    else PlatformStateToString(s, names)
  }

  /**
   * What a token says: its line and train id always read back; the rest names
   * the source station and then either `-><dest>`, `#` or `%` by status.
   */
  lemma StateToStringMeaning(s: State, names: seq<string>)
    requires ValidSrc(s, names)
    requires s.status == 0 ==> ValidDest(s, names)
    ensures var r := StateToString(s, names);
      ParseHead(r).Some? && ParseHead(r).value.0 == s.line && ParseHead(r).value.1 == s.id
    ensures var rest := ParseHead(StateToString(s, names)).value.2;
      rest == names[s.srcPlatformId] +
        (if s.status == 0 then "->" + names[s.destPlatformId]
         else if s.status == 1 then "#" else "%")
  {
    if s.status == 0 {
      assert names[s.srcPlatformId] + ("->" + names[s.destPlatformId])
          == names[s.srcPlatformId] + "->" + names[s.destPlatformId];
    }
  }

  /** Two holding tokens are equal only for the same line, train id and source name. */
  lemma HoldingTokenInjective(s: State, t: State, names: seq<string>)
    requires ValidSrc(s, names) && ValidSrc(t, names)
    requires HoldingStateToString(s, names) == HoldingStateToString(t, names)
    ensures s.line == t.line && s.id == t.id && names[s.srcPlatformId] == names[t.srcPlatformId]
  {
    var a := names[s.srcPlatformId] + "#";
    var b := names[t.srcPlatformId] + "#";
    assert a == b;
    assert a[..|a| - 1] == names[s.srcPlatformId];
    assert b[..|b| - 1] == names[t.srcPlatformId];
  }

  /** A holding token and a platform token never coincide. */
  lemma HoldingAndPlatformTokensDiffer(s: State, t: State, names: seq<string>)
    requires ValidSrc(s, names) && ValidSrc(t, names)
    ensures HoldingStateToString(s, names) != PlatformStateToString(t, names)
  {
  }

  /** The tick is never rendered; the holding and platform forms ignore the destination. */
  lemma TokenIgnoresTickAndDest(s: State, names: seq<string>, tick: int, dest: int)
    requires ValidSrc(s, names)
    requires s.status == 0 ==> ValidDest(s, names)
    ensures StateToString(s.(tick := tick), names) == StateToString(s, names)
    ensures HoldingStateToString(s.(destPlatformId := dest), names) == HoldingStateToString(s, names)
    ensures PlatformStateToString(s.(destPlatformId := dest), names) == PlatformStateToString(s, names)
  {
  }

  /** The expected strings of the formatting tests. */
  lemma LinkTokenExample()
    ensures LinkStateToString(State('g', 1, 0, 1, 0, 0), ["changi", "tampines", "clementi"]) == "g1-changi->tampines"
  {
    assert IntToString(1) == "1";
  }

  lemma HoldingTokenExample()
    ensures HoldingStateToString(State('b', 0, 0, 1, 1, 0), ["changi", "tampines", "clementi"]) == "b0-changi#"
  {
    assert IntToString(0) == "0";
  }

  lemma PlatformTokenExample()
    ensures PlatformStateToString(State('y', 12, 2, 0, 2, 0), ["changi", "tampines", "clementi"]) == "y12-clementi%"
  {
    assert IntToString(12) == "12";
  }
}
