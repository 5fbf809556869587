/** The attestation manifest: how a contract is printed, one line for each fact, and how it is
    read back. */
module Manifests {
  import opened Wrappers
  import opened ContractDiffs
  import opened RangeTexts

  /** What the first line of every manifest starts with; the version follows. */
  const FORMAT: string := "jestyr-attest/"
  const NO_PANIC: string := "`@no_panic`" + " — proven free of faulting operations"

  // ----- what is attested -----

  /** The proven facts of a function, in source order. */
  datatype Facts = Facts(
    noPanic: bool,
    demands: seq<string>,
    promises: seq<string>,
    bounds: seq<(string, string)>,
    errors: Option<seq<string>>)

  datatype Record = Record(kind: string, name: string, isPub: bool, sig: string, facts: Facts, deprecated: Option<string>)
  datatype Header = Header(version: string, source: string, cSha256: string, ccFlags: string)

  // ----- what is read back -----

  datatype Parsed = Parsed(
    kind: string,
    name: string,
    isPub: bool,
    sig: string,
    noPanic: bool,
    demands: set<string>,
    promises: set<string>,
    errors: set<string>,
    bounds: map<string, string>,
    deprecated: Option<string>)
  {
    function Key(): string { kind + " " + name }
  }

  function Opened(kind: string, name: string): Parsed {
    Parsed(kind, name, false, "", false, {}, {}, {}, map[], None)
  }

  // ----- printing -----

  function Wrapped(open: string, texts: seq<string>, close: string): seq<string> {
    if texts == [] then [] else [open + texts[0] + close] + Wrapped(open, texts[1..], close)
  }

  function BoundPhrase(b: (string, string)): string {
    "parameter `" + b.0 + "` is constrained to `" + b.1 + "`"
  }

  function BoundPhrases(bounds: seq<(string, string)>): seq<string> {
    if bounds == [] then [] else [BoundPhrase(bounds[0])] + BoundPhrases(bounds[1..])
  }

  function Joined(names: seq<string>): string {
    if names == [] then ""
    else if |names| == 1 then names[0]
    else names[0] + ", " + Joined(names[1..])
  }

  function ErrorPhrase(names: seq<string>): string { "may fail with `!{ " + Joined(names) + " }`" }

  function Guarantees(f: Facts): seq<string> {
    (if f.noPanic then [NO_PANIC] else [])
    + Wrapped("`requires ", f.demands, "`")
    + Wrapped("`ensures ", f.promises, "`")
    + BoundPhrases(f.bounds)
    + (if f.errors.Some? then [ErrorPhrase(f.errors.value)] else [])
  }

  function DeprecatedLines(d: Option<string>): seq<string> {
    if d.None? then [] else if d.value == "" then ["  deprecated:"] else ["  deprecated: " + d.value]
  }

  function ItemLines(r: Record): seq<string> {
    [r.kind + " " + r.name, "  vis: " + if r.isPub then "pub" else "priv", "  sig: " + r.sig]
    + DeprecatedLines(r.deprecated)
    + Wrapped("  guarantee: ", Guarantees(r.facts), "")
  }

  function BodyLines(rs: seq<Record>): seq<string> {
    if rs == [] then [] else [""] + ItemLines(rs[0]) + BodyLines(rs[1..])
  }

  function HeaderLines(h: Header): seq<string> {
    [h.version, "source " + h.source, "c-sha256 " + h.cSha256, "cc-flags " + h.ccFlags]
  }

  /** Every line is ended. */
  function Text(lines: seq<string>): string {
    if lines == [] then "" else lines[0] + "\n" + Text(lines[1..])
  }

  function Printed(h: Header, rs: seq<Record>): string { Text(HeaderLines(h) + BodyLines(rs)) }

  // ----- reading -----

  function StripPrefix(s: string, p: string): Option<string> {
    if p <= s then Some(s[|p|..]) else None
  }

  function DropReturn(s: string): string {
    if s != [] && s[|s| - 1] == '\r' then s[..|s| - 1] else s
  }

  /** The lines of a text; a last one need not be ended. */
  function Lines(s: string): seq<string>
    decreases |s|
  {
    if s == [] then []
    else
      match SplitOnce(s, "\n")
      case None => [s]
      case Some((line, rest)) => [DropReturn(line)] + Lines(rest)
  }

  function TrimTicks(s: string, c: char): string
    decreases |s|
  {
    if s != [] && s[|s| - 1] == c then TrimTicks(s[..|s| - 1], c) else s
  }

  /** The names between commas, blanks around them aside. */
  function ErrorNames(s: string): set<string>
    decreases |s|
  {
    match SplitOnce(s, ",")
    case None => {Trim(s)} - {""}
    case Some((name, rest)) => ({Trim(name)} - {""}) + ErrorNames(rest)
  }

  function ParseBound(phrase: string): Option<(string, string)> {
    match StripPrefix(phrase, "parameter `")
    case None => None
    case Some(rest) =>
      match SplitOnce(rest, "`")
      case None => None
      case Some((name, more)) =>
        match StripPrefix(more, " is constrained to `")
        case None => None
        case Some(range) => if range != [] && range[|range| - 1] == '`' then Some((name, range[..|range| - 1])) else None
  }

  function Absorb(it: Parsed, phrase: string): Parsed {
    if "`@no_panic`" <= phrase then it.(noPanic := true)
    else if "`requires " <= phrase then it.(demands := it.demands + {TrimTicks(phrase[10..], '`')})
    else if "`ensures " <= phrase then it.(promises := it.promises + {TrimTicks(phrase[9..], '`')})
    else if "parameter `" <= phrase then
      match ParseBound(phrase)
      case None => it
      case Some((name, range)) => it.(bounds := it.bounds[name := range])
    else if "may fail with `!{ " <= phrase then
      it.(errors := it.errors + ErrorNames(TrimTicks(TrimTicks(phrase[18..], '`'), '}')))
    else it
  }

  /** An indented line fills in the open item. */
  function Filled(it: Parsed, body: string): Parsed {
    if "vis: " <= body then it.(isPub := Trim(body[5..]) == "pub")
    else if "sig: " <= body then it.(sig := body[5..])
    else if "guarantee: " <= body then Absorb(it, body[11..])
    else if "deprecated:" <= body then
      var v := body[11..];
      it.(deprecated := Some(if " " <= v then v[1..] else ""))
    else it
  }

  type Items = map<string, Parsed>

  function Flushed(cur: Option<Parsed>, items: Items): Items {
    if cur.Some? then items[cur.value.Key() := cur.value] else items
  }

  function NewItem(line: string): Parsed {
    match SplitOnce(line, " ")
    case None => Opened(line, "")
    case Some((kind, name)) => Opened(kind, name)
  }

  function ReadItems(lines: seq<string>, cur: Option<Parsed>, items: Items): Items
    decreases |lines|
  {
    if lines == [] then Flushed(cur, items)
    else if lines[0] == "" then ReadItems(lines[1..], None, Flushed(cur, items))
    else if "  " <= lines[0] then
      ReadItems(lines[1..], if cur.Some? then Some(Filled(cur.value, lines[0][2..])) else None, items)
    else ReadItems(lines[1..], Some(NewItem(lines[0])), Flushed(cur, items))
  }

  function HeaderField(h: Header, line: string): Header {
    if "source " <= line then h.(source := line[7..])
    else if "c-sha256 " <= line then h.(cSha256 := line[9..])
    else if "cc-flags " <= line then h.(ccFlags := line[9..])
    else h
  }

  /** Up to the first empty line, which is dropped. */
  function ReadHeader(lines: seq<string>, h: Header): (r: (Header, seq<string>))
    ensures |r.1| <= |lines|
    decreases |lines|
  {
    if lines == [] then (h, [])
    else if lines[0] == "" then (h, lines[1..])
    else ReadHeader(lines[1..], HeaderField(h, lines[0]))
  }

  function Read(text: string): Option<(Header, Items)> {
    var lines := Lines(text);
    var first := if lines == [] then "" else lines[0];
    if !(FORMAT <= first) then None
    else
      var (h, rest) := ReadHeader(lines[1..], Header(first, "", "", ""));
      Some((h, ReadItems(rest, None, map[])))
  }

  /** The reader as it runs: the header, then a line at a time with the open item and those
      closed so far. */
  method ParseManifest(text: string) returns (r: Option<(Header, Items)>)
    ensures r == Read(text)
  {
    hide ReadHeader, ReadItems, Lines;
    var lines := Lines(text);
    var first := if lines == [] then "" else lines[0];
    if !(FORMAT <= first) {
      return None;
    }
    var h, rest := ParseHeader(lines[1..], Header(first, "", "", ""));
    var items := ParseItems(rest);
    r := Some((h, items));
  }

  method ParseHeader(lines: seq<string>, start: Header) returns (h: Header, rest: seq<string>)
    ensures (h, rest) == ReadHeader(lines, start)
  {
    hide HeaderField;
    h := start;
    var i := 0;
    while i < |lines| && lines[i] != ""
      invariant 0 <= i <= |lines|
      invariant ReadHeader(lines, start) == ReadHeader(lines[i..], h)
    {
      assert lines[i..][0] == lines[i] && lines[i..][1..] == lines[i + 1..];
      h := HeaderField(h, lines[i]);
      i := i + 1;
    }
    rest := if i < |lines| then lines[i + 1..] else [];
    if i < |lines| {
      assert lines[i..][0] == lines[i] && lines[i..][1..] == lines[i + 1..];
    }
  }

  method ParseItems(lines: seq<string>) returns (all: Items)
    ensures all == ReadItems(lines, None, map[])
  {
    hide Filled, NewItem, Flushed;
    var cur: Option<Parsed>, items: Items := None, map[];
    for i := 0 to |lines|
      invariant ReadItems(lines, None, map[]) == ReadItems(lines[i..], cur, items)
    {
      var line := lines[i];
      assert lines[i..][0] == line && lines[i..][1..] == lines[i + 1..];
      if line == "" {
        cur, items := None, Flushed(cur, items);
      } else if "  " <= line {
        if cur.Some? {
          cur := Some(Filled(cur.value, line[2..]));
        }
      } else {
        items := Flushed(cur, items);
        cur := Some(NewItem(line));
      }
    }
    all := Flushed(cur, items);
  }

  // ----- printing then reading: texts and lines -----

  predicate Without(s: string, c: char) { c !in s }

  /** A text that stays on its line. */
  predicate OneLine(s: string) { Without(s, '\n') && (s != [] ==> s[|s| - 1] != '\r') }

  lemma {:induction false} SplitsHere(a: string, c: char, b: string)
    requires Without(a, c)
    ensures SplitOnce(a + [c] + b, [c]) == Some((a, b))
    decreases |a|
  {
    var s := a + [c] + b;
    if a == [] {
      assert s == [c] + b;
    } else {
      assert s[0] != c && !([c] <= s);
      assert s[1..] == a[1..] + [c] + b;
      SplitsHere(a[1..], c, b);
      assert [a[0]] + a[1..] == a;
    }
  }

  lemma {:induction false} NoSplit(s: string, c: char)
    requires Without(s, c)
    ensures SplitOnce(s, [c]) == None
    decreases |s|
  {
    if s != [] {
      NotPrefix([c], s, 0);
      NoSplit(s[1..], c);
    }
  }

  lemma {:induction false} LinesOfText(lines: seq<string>)
    requires forall i :: 0 <= i < |lines| ==> OneLine(lines[i])
    ensures Lines(Text(lines)) == lines
    decreases |lines|
  {
    if lines != [] {
      var rest := Text(lines[1..]);
      SplitsHere(lines[0], '\n', rest);
      assert Text(lines) == lines[0] + ['\n'] + rest;
      LinesOfText(lines[1..]);
    }
  }

  // ----- phrases -----

  lemma StripsOwn(p: string, s: string)
    ensures p <= p + s && (p + s)[|p|..] == s
  {
  }

  lemma NotPrefix(p: string, s: string, i: nat)
    requires i < |p| && i < |s| && p[i] != s[i]
    ensures !(p <= s)
  {
  }

  lemma TrimsTicks(s: string, c: char)
    requires s == [] || s[|s| - 1] != c
    ensures TrimTicks(s, c) == s && TrimTicks(s + [c], c) == s
  {
    assert (s + [c])[..|s|] == s;
  }

  /** A clause keeps its text exactly when that does not end in a backtick. */
  lemma {:induction false} ClauseTextKept(s: string)
    ensures TrimTicks(s + "`", '`') == s <==> s == [] || s[|s| - 1] != '`'
  {
    if s != [] && s[|s| - 1] == '`' {
      assert (s + "`")[..|s|] == s;
      TrimTicksEnd(s, '`');
    } else {
      TrimsTicks(s, '`');
    }
  }

  lemma {:induction false} TrimTicksEnd(s: string, c: char)
    ensures var t := TrimTicks(s, c); t == [] || t[|t| - 1] != c
    decreases |s|
  {
    if s != [] && s[|s| - 1] == c {
      TrimTicksEnd(s[..|s| - 1], c);
    }
  }

  predicate NoTick(s: string) { s == [] || s[|s| - 1] != '`' }

  lemma AbsorbsNoPanic(it: Parsed)
    ensures Absorb(it, NO_PANIC) == it.(noPanic := true)
  {
    StripsOwn("`@no_panic`", " — proven free of faulting operations");
  }

  lemma AbsorbsDemand(it: Parsed, r: string)
    requires NoTick(r)
    ensures Absorb(it, "`requires " + r + "`") == it.(demands := it.demands + {r})
  {
    var phrase := "`requires " + r + "`";
    assert phrase == "`requires " + (r + "`");
    StripsOwn("`requires ", r + "`");
    NotPrefix("`@no_panic`", phrase, 1);
    ClauseTextKept(r);
  }

  lemma AbsorbsPromise(it: Parsed, r: string)
    requires NoTick(r)
    ensures Absorb(it, "`ensures " + r + "`") == it.(promises := it.promises + {r})
  {
    var phrase := "`ensures " + r + "`";
    assert phrase == "`ensures " + (r + "`");
    StripsOwn("`ensures ", r + "`");
    NotPrefix("`@no_panic`", phrase, 1);
    NotPrefix("`requires ", phrase, 1);
    ClauseTextKept(r);
  }

  lemma ParsesBound(b: (string, string))
    requires Without(b.0, '`')
    ensures ParseBound(BoundPhrase(b)) == Some(b)
  {
    var middle, end := " is constrained to `", b.1 + "`";
    var more := middle + end;
    var rest := b.0 + ['`'] + more;
    assert BoundPhrase(b) == "parameter `" + rest;
    StripsOwn("parameter `", rest);
    SplitsHere(b.0, '`', more);
    StripsOwn(middle, end);
    assert end[..|end| - 1] == b.1;
  }

  lemma BoundPhraseStarts(b: (string, string))
    ensures "parameter `" <= BoundPhrase(b)
  {
    var rest := b.0 + "` is constrained to `" + b.1 + "`";
    assert BoundPhrase(b) == "parameter `" + rest;
    StripsOwn("parameter `", rest);
  }

  lemma AbsorbsBound(it: Parsed, b: (string, string))
    requires Without(b.0, '`')
    ensures Absorb(it, BoundPhrase(b)) == it.(bounds := it.bounds[b.0 := b.1])
  {
    hide ParseBound, BoundPhrase, ErrorNames, TrimTicks;
    ParsesBound(b);
    BoundPhraseStarts(b);
    var phrase := BoundPhrase(b);
    assert phrase[0] == "parameter `"[0];
    NotPrefix("`@no_panic`", phrase, 0);
    NotPrefix("`requires ", phrase, 0);
    NotPrefix("`ensures ", phrase, 0);
  }

  // ----- error names -----

  /** Not empty, and no blank at either end. */
  predicate Tight(s: string) { s != [] && !IsBlank(s[0]) && !IsBlank(s[|s| - 1]) }

  lemma TrimsBlanks(s: string)
    requires Tight(s)
    ensures Trim(s) == s && Trim(" " + s) == s && Trim(s + " ") == s && Trim(" " + s + " ") == s
  {
    assert (" " + s)[1..] == s;
    assert (s + " ")[..|s|] == s;
    assert " " + s + " " == " " + (s + " ");
    assert (" " + (s + " "))[1..] == s + " ";
  }

  lemma NamesBefore(name: string, rest: string)
    requires Without(name, ',')
    ensures ErrorNames(name + [','] + rest) == ({Trim(name)} - {""}) + ErrorNames(rest)
  {
    hide Trim;
    SplitsHere(name, ',', rest);
  }

  lemma LastName(name: string)
    requires Without(name, ',')
    ensures ErrorNames(name) == {Trim(name)} - {""}
  {
    hide Trim;
    NoSplit(name, ',');
  }

  /** A name with the blank that a comma brings, or without one. */
  lemma NameTrims(lead: string, n: string)
    requires Tight(n) && Without(n, ',') && (lead == "" || lead == " ")
    ensures Trim(lead + n) == n && Trim(lead + n + " ") == n
    ensures Without(lead + n, ',') && Without(lead + n + " ", ',')
  {
    TrimsBlanks(n);
    hide Trim;
    if lead == "" {
      assert lead + n == n;
    }
  }

  lemma {:induction false} NamesOfJoined(names: seq<string>, lead: string)
    requires forall i :: 0 <= i < |names| ==> Tight(names[i]) && Without(names[i], ',')
    requires lead == "" || lead == " "
    ensures ErrorNames(lead + Joined(names) + " ") == (set n | n in names)
    decreases |names|
  {
    hide ErrorNames, Trim, SplitOnce;
    if names == [] {
      BlankTrims(lead);
      LastName(lead + "" + " ");
    } else {
      var n := names[0];
      NameTrims(lead, n);
      if |names| == 1 {
        LastName(lead + n + " ");
        assert names == [n];
      } else {
        var rest := names[1..];
        assert lead + Joined(names) + " " == (lead + n) + [','] + (" " + Joined(rest) + " ");
        NamesBefore(lead + n, " " + Joined(rest) + " ");
        NamesOfJoined(rest, " ");
        assert names == [n] + rest;
      }
    }
  }

  lemma BlankTrims(lead: string)
    requires lead == "" || lead == " "
    ensures Trim(lead + "" + " ") == ""
  {
    assert lead + "" + " " == if lead == "" then " " else "  ";
    assert "  "[1..] == " ";
    assert " "[1..] == "";
  }

  lemma ErrorListTrims(j: string)
    ensures TrimTicks(TrimTicks(j + " }`", '`'), '}') == j + " "
  {
    assert j + " }`" == (j + " }") + ['`'] && j + " }" == (j + " ") + ['}'];
    TrimsTicks(j + " }", '`');
    TrimsTicks(j + " ", '}');
  }

  /** The phrase is read as a list of names. */
  lemma ErrorPhraseRead(it: Parsed, names: seq<string>)
    ensures Absorb(it, ErrorPhrase(names)) == it.(errors := it.errors + ErrorNames(Joined(names) + " "))
  {
    hide ErrorNames, Joined, TrimTicks, ParseBound;
    var phrase := ErrorPhrase(names);
    var rest := Joined(names) + " }`";
    assert phrase == "may fail with `!{ " + rest;
    StripsOwn("may fail with `!{ ", rest);
    NotPrefix("`@no_panic`", phrase, 0);
    NotPrefix("`requires ", phrase, 0);
    NotPrefix("`ensures ", phrase, 0);
    NotPrefix("parameter `", phrase, 0);
    ErrorListTrims(Joined(names));
  }

  lemma AbsorbsErrors(it: Parsed, names: seq<string>)
    requires forall i :: 0 <= i < |names| ==> Tight(names[i]) && Without(names[i], ',')
    ensures Absorb(it, ErrorPhrase(names)) == it.(errors := it.errors + set n | n in names)
  {
    hide Absorb, ErrorPhrase, ErrorNames;
    ErrorPhraseRead(it, names);
    NamesOfJoined(names, "");
    assert "" + Joined(names) + " " == Joined(names) + " ";
  }

  lemma {:induction false} NamesHaveNoCommas(s: string)
    ensures forall n :: n in ErrorNames(s) ==> Without(n, ',')
    decreases |s|
  {
    match SplitOnce(s, ",")
    case None =>
      NoSplitMeansWithout(s, ',');
      TrimWithout(s, ',');
    case Some((name, rest)) =>
      SplitsAtFirst(s, ',');
      TrimWithout(name, ',');
      NamesHaveNoCommas(rest);
  }

  lemma {:induction false} NoSplitMeansWithout(s: string, c: char)
    requires SplitOnce(s, [c]).None?
    ensures Without(s, c)
    decreases |s|
  {
    if s != [] {
      assert s[0] == c ==> [c] <= s;
      NoSplitMeansWithout(s[1..], c);
    }
  }

  lemma {:induction false} SplitsAtFirst(s: string, c: char)
    requires SplitOnce(s, [c]).Some?
    ensures Without(SplitOnce(s, [c]).value.0, c)
    decreases |s|
  {
    if !([c] <= s) {
      SplitsAtFirst(s[1..], c);
    }
  }

  lemma {:induction false} TrimWithout(s: string, c: char)
    requires Without(s, c)
    ensures Without(Trim(s), c)
  {
    TrimStartWithout(s, c);
    TrimEndWithout(TrimStart(s), c);
  }

  lemma {:induction false} TrimStartWithout(s: string, c: char)
    requires Without(s, c)
    ensures Without(TrimStart(s), c)
    decreases |s|
  {
    if s != [] && IsBlank(s[0]) { TrimStartWithout(s[1..], c); }
  }

  lemma {:induction false} TrimEndWithout(s: string, c: char)
    requires Without(s, c)
    ensures Without(TrimEnd(s), c)
    decreases |s|
  {
    if s != [] && IsBlank(s[|s| - 1]) { TrimEndWithout(s[..|s| - 1], c); }
  }

  /** An error set survives exactly when no name holds a comma, as that of a payload with two
      type arguments does. */
  lemma ErrorSetKept(it: Parsed, names: seq<string>)
    requires forall i :: 0 <= i < |names| ==> Tight(names[i])
    requires it.errors == {}
    ensures Absorb(it, ErrorPhrase(names)).errors == (set n | n in names)
      <==> forall i :: 0 <= i < |names| ==> Without(names[i], ',')
  {
    if forall i :: 0 <= i < |names| ==> Without(names[i], ',') {
      AbsorbsErrors(it, names);
    } else {
      var i :| 0 <= i < |names| && !Without(names[i], ',');
      ErrorPhraseRead(it, names);
      hide Absorb, ErrorPhrase, ErrorNames;
      NamesHaveNoCommas(Joined(names) + " ");
      assert names[i] in (set n | n in names);
    }
  }

  // ----- an item -----

  function SetOf(xs: seq<string>): set<string> { set x | x in xs }

  function MapOf(bounds: seq<(string, string)>): map<string, string> { BoundsAdded(map[], bounds) }

  function BoundsAdded(m: map<string, string>, bounds: seq<(string, string)>): map<string, string>
    decreases |bounds|
  {
    if bounds == [] then m else BoundsAdded(m[bounds[0].0 := bounds[0].1], bounds[1..])
  }

  /** What the record says, as sets. */
  function Meant(r: Record): Parsed {
    Parsed(r.kind, r.name, r.isPub, r.sig, r.facts.noPanic, SetOf(r.facts.demands), SetOf(r.facts.promises),
      if r.facts.errors.Some? then SetOf(r.facts.errors.value) else {}, MapOf(r.facts.bounds), r.deprecated)
  }

  /** Texts on one line, clauses without a backtick at the end, error names without commas. */
  predicate PlainFacts(f: Facts) {
    && (forall i :: 0 <= i < |f.demands| ==> OneLine(f.demands[i]) && NoTick(f.demands[i]))
    && (forall i :: 0 <= i < |f.promises| ==> OneLine(f.promises[i]) && NoTick(f.promises[i]))
    && (forall i :: 0 <= i < |f.bounds| ==>
          OneLine(f.bounds[i].0) && Without(f.bounds[i].0, '`') && OneLine(f.bounds[i].1))
    && (f.errors.Some? ==> forall i :: 0 <= i < |f.errors.value| ==>
          var e := f.errors.value[i]; Tight(e) && OneLine(e) && Without(e, ','))
  }

  predicate PlainRecord(r: Record) {
    && r.kind != "" && Without(r.kind, ' ') && OneLine(r.kind)
    && OneLine(r.name) && OneLine(r.sig)
    && (r.deprecated.Some? ==> OneLine(r.deprecated.value))
    && PlainFacts(r.facts)
  }

  function AbsorbedAll(it: Parsed, phrases: seq<string>): Parsed
    decreases |phrases|
  {
    if phrases == [] then it else AbsorbedAll(Absorb(it, phrases[0]), phrases[1..])
  }

  lemma {:induction false} AbsorbsInTurn(it: Parsed, a: seq<string>, b: seq<string>)
    ensures AbsorbedAll(it, a + b) == AbsorbedAll(AbsorbedAll(it, a), b)
    decreases |a|
  {
    hide Absorb;
    if a == [] {
      assert a + b == b;
    } else {
      assert (a + b)[0] == a[0] && (a + b)[1..] == a[1..] + b;
      AbsorbsInTurn(Absorb(it, a[0]), a[1..], b);
    }
  }

  lemma {:induction false} AbsorbsDemands(it: Parsed, rs: seq<string>)
    requires forall i :: 0 <= i < |rs| ==> NoTick(rs[i])
    ensures AbsorbedAll(it, Wrapped("`requires ", rs, "`")) == it.(demands := it.demands + SetOf(rs))
    decreases |rs|
  {
    hide Absorb;
    if rs != [] {
      AbsorbsDemand(it, rs[0]);
      AbsorbsDemands(it.(demands := it.demands + {rs[0]}), rs[1..]);
      assert rs == [rs[0]] + rs[1..];
      assert it.demands + {rs[0]} + SetOf(rs[1..]) == it.demands + SetOf(rs);
      assert Wrapped("`requires ", rs, "`")[1..] == Wrapped("`requires ", rs[1..], "`");
    } else {
      assert it.demands + SetOf(rs) == it.demands;
    }
  }

  lemma {:induction false} AbsorbsPromises(it: Parsed, rs: seq<string>)
    requires forall i :: 0 <= i < |rs| ==> NoTick(rs[i])
    ensures AbsorbedAll(it, Wrapped("`ensures ", rs, "`")) == it.(promises := it.promises + SetOf(rs))
    decreases |rs|
  {
    hide Absorb;
    if rs != [] {
      AbsorbsPromise(it, rs[0]);
      AbsorbsPromises(it.(promises := it.promises + {rs[0]}), rs[1..]);
      assert rs == [rs[0]] + rs[1..];
      assert it.promises + {rs[0]} + SetOf(rs[1..]) == it.promises + SetOf(rs);
      assert Wrapped("`ensures ", rs, "`")[1..] == Wrapped("`ensures ", rs[1..], "`");
    } else {
      assert it.promises + SetOf(rs) == it.promises;
    }
  }

  lemma {:induction false} AbsorbsBounds(it: Parsed, bs: seq<(string, string)>)
    requires forall i :: 0 <= i < |bs| ==> Without(bs[i].0, '`')
    ensures AbsorbedAll(it, BoundPhrases(bs)) == it.(bounds := BoundsAdded(it.bounds, bs))
    decreases |bs|
  {
    hide Absorb, BoundPhrase;
    if bs != [] {
      AbsorbsBound(it, bs[0]);
      AbsorbsBounds(it.(bounds := it.bounds[bs[0].0 := bs[0].1]), bs[1..]);
      assert BoundPhrases(bs)[1..] == BoundPhrases(bs[1..]);
    }
  }

  lemma AbsorbsGuarantees(it: Parsed, f: Facts)
    requires PlainFacts(f)
    requires !it.noPanic && it.demands == {} && it.promises == {} && it.errors == {} && it.bounds == map[]
    ensures AbsorbedAll(it, Guarantees(f)) == it.(noPanic := f.noPanic, demands := SetOf(f.demands), promises := SetOf(f.promises),
      bounds := MapOf(f.bounds), errors := if f.errors.Some? then SetOf(f.errors.value) else {})
  {
    hide Absorb, BoundsAdded, Wrapped, BoundPhrases, ErrorPhrase;
    var p0 := if f.noPanic then [NO_PANIC] else [];
    var p1, p2, p3 := Wrapped("`requires ", f.demands, "`"), Wrapped("`ensures ", f.promises, "`"), BoundPhrases(f.bounds);
    var p4 := if f.errors.Some? then [ErrorPhrase(f.errors.value)] else [];
    AbsorbsInTurn(it, p0 + p1 + p2 + p3, p4);
    AbsorbsInTurn(it, p0 + p1 + p2, p3);
    AbsorbsInTurn(it, p0 + p1, p2);
    AbsorbsInTurn(it, p0, p1);
    var i0 := AbsorbedAll(it, p0);
    assert i0 == it.(noPanic := f.noPanic) by { AbsorbsNoPanic(it); }
    AbsorbsDemands(i0, f.demands);
    assert {} + SetOf(f.demands) == SetOf(f.demands);
    var i1 := i0.(demands := SetOf(f.demands));
    AbsorbsPromises(i1, f.promises);
    assert {} + SetOf(f.promises) == SetOf(f.promises);
    var i2 := i1.(promises := SetOf(f.promises));
    AbsorbsBounds(i2, f.bounds);
    var i3 := i2.(bounds := MapOf(f.bounds));
    if f.errors.Some? {
      AbsorbsErrors(i3, f.errors.value);
      assert {} + SetOf(f.errors.value) == SetOf(f.errors.value);
    }
  }

  // ----- the lines of an item -----

  /** An indented line is read into the open item. */
  lemma FillsIn(body: string, rest: seq<string>, it: Parsed, items: Items)
    ensures ReadItems(["  " + body] + rest, Some(it), items) == ReadItems(rest, Some(Filled(it, body)), items)
  {
    hide Filled;
    var line := "  " + body;
    StripsOwn("  ", body);
    assert ([line] + rest)[1..] == rest;
  }

  lemma {:induction false} FillsGuarantees(phrases: seq<string>, rest: seq<string>, it: Parsed, items: Items)
    ensures ReadItems(Wrapped("  guarantee: ", phrases, "") + rest, Some(it), items)
      == ReadItems(rest, Some(AbsorbedAll(it, phrases)), items)
    decreases |phrases|
  {
    hide Absorb;
    var lines := Wrapped("  guarantee: ", phrases, "");
    if phrases == [] {
      assert lines + rest == rest;
    } else {
      var body := "guarantee: " + phrases[0];
      var more := Wrapped("  guarantee: ", phrases[1..], "");
      assert "  guarantee: " + phrases[0] + "" == "  " + body;
      assert lines + rest == ["  " + body] + (more + rest);
      FillsIn(body, more + rest, it, items);
      StripsOwn("guarantee: ", phrases[0]);
      NotPrefix("vis: ", body, 0);
      NotPrefix("sig: ", body, 0);
      assert Filled(it, body) == Absorb(it, phrases[0]);
      FillsGuarantees(phrases[1..], rest, Absorb(it, phrases[0]), items);
    }
  }

  lemma FillsVisibility(it: Parsed, isPub: bool)
    ensures Filled(it, "vis: " + if isPub then "pub" else "priv") == it.(isPub := isPub)
  {
    var word := if isPub then "pub" else "priv";
    StripsOwn("vis: ", word);
    assert Tight(word);
    TrimsBlanks(word);
  }

  lemma FillsSignature(it: Parsed, sig: string)
    ensures Filled(it, "sig: " + sig) == it.(sig := sig)
  {
    StripsOwn("sig: ", sig);
    NotPrefix("vis: ", "sig: " + sig, 0);
  }

  lemma FillsDeprecated(it: Parsed, v: string)
    requires v == "" || " " <= v
    ensures Filled(it, "deprecated:" + v) == it.(deprecated := Some(if v == "" then "" else v[1..]))
  {
    var body := "deprecated:" + v;
    StripsOwn("deprecated:", v);
    NotPrefix("vis: ", body, 0);
    NotPrefix("sig: ", body, 0);
    NotPrefix("guarantee: ", body, 0);
  }

  lemma FillsDeprecation(d: Option<string>, rest: seq<string>, it: Parsed, items: Items)
    requires it.deprecated == None
    ensures ReadItems(DeprecatedLines(d) + rest, Some(it), items) == ReadItems(rest, Some(it.(deprecated := d)), items)
  {
    hide Filled, ReadItems;
    if d.None? {
      assert DeprecatedLines(d) + rest == rest;
    } else {
      var v := if d.value == "" then "" else " " + d.value;
      if d.value == "" {
        assert "deprecated:" + v == "deprecated:";
        assert "  deprecated:" == "  " + "deprecated:";
      } else {
        assert "  deprecated: " + d.value == "  " + ("deprecated:" + v);
      }
      assert DeprecatedLines(d) == ["  " + ("deprecated:" + v)];
      FillsIn("deprecated:" + v, rest, it, items);
      FillsDeprecated(it, v);
    }
  }

  lemma OpensItem(r: Record, rest: seq<string>, items: Items)
    requires PlainRecord(r)
    ensures ReadItems([r.kind + " " + r.name] + rest, None, items) == ReadItems(rest, Some(Opened(r.kind, r.name)), items)
  {
    var line := r.kind + " " + r.name;
    SplitsHere(r.kind, ' ', r.name);
    NotPrefix("  ", line, 0);
    assert ([line] + rest)[0] == line && ([line] + rest)[1..] == rest;
  }

  lemma ReadsItem(r: Record, rest: seq<string>, items: Items)
    requires PlainRecord(r)
    ensures ReadItems(ItemLines(r) + rest, None, items) == ReadItems(rest, Some(Meant(r)), items)
  {
    hide ReadItems, Filled, Guarantees, DeprecatedLines, Wrapped, AbsorbedAll, Absorb;
    var vis, sig := "vis: " + if r.isPub then "pub" else "priv", "sig: " + r.sig;
    var gs := Wrapped("  guarantee: ", Guarantees(r.facts), "");
    var tail := DeprecatedLines(r.deprecated) + (gs + rest);
    assert ItemLines(r) + rest == [r.kind + " " + r.name] + (["  " + vis] + (["  " + sig] + tail)) by { ItemLinesAre(r, rest); }
    OpensItem(r, ["  " + vis] + (["  " + sig] + tail), items);
    var i0 := Opened(r.kind, r.name);
    FillsIn(vis, ["  " + sig] + tail, i0, items);
    FillsVisibility(i0, r.isPub);
    var i1 := i0.(isPub := r.isPub);
    FillsIn(sig, tail, i1, items);
    FillsSignature(i1, r.sig);
    var i2 := i1.(sig := r.sig);
    FillsDeprecation(r.deprecated, gs + rest, i2, items);
    var i3 := i2.(deprecated := r.deprecated);
    FillsGuarantees(Guarantees(r.facts), rest, i3, items);
    AbsorbsGuarantees(i3, r.facts);
  }

  lemma ItemLinesAre(r: Record, rest: seq<string>)
    ensures var vis, sig := "vis: " + if r.isPub then "pub" else "priv", "sig: " + r.sig;
      ItemLines(r) + rest == [r.kind + " " + r.name] + (["  " + vis] + (["  " + sig]
        + (DeprecatedLines(r.deprecated) + (Wrapped("  guarantee: ", Guarantees(r.facts), "") + rest))))
  {
    hide Guarantees, DeprecatedLines, Wrapped;
    var vis, sig := "vis: " + if r.isPub then "pub" else "priv", "sig: " + r.sig;
    assert "  vis: " + (if r.isPub then "pub" else "priv") == "  " + vis;
    assert "  sig: " + r.sig == "  " + sig;
  }

  // ----- the whole manifest -----

  function ItemsOf(rs: seq<Record>, items: Items): Items
    decreases |rs|
  {
    if rs == [] then items else ItemsOf(rs[1..], items[Meant(rs[0]).Key() := Meant(rs[0])])
  }

  lemma {:induction false} ReadsBody(rs: seq<Record>, cur: Option<Parsed>, items: Items)
    requires forall i :: 0 <= i < |rs| ==> PlainRecord(rs[i])
    ensures ReadItems(BodyLines(rs), cur, items) == ItemsOf(rs, Flushed(cur, items))
    decreases |rs|
  {
    hide ItemLines, Meant, ReadItems, Flushed, PlainRecord;
    if rs == [] {
      ReadsNothing(cur, items);
    } else {
      var rest := BodyLines(rs[1..]);
      assert BodyLines(rs) == [""] + (ItemLines(rs[0]) + rest);
      ClosesItem(ItemLines(rs[0]) + rest, cur, items);
      ReadsItem(rs[0], rest, Flushed(cur, items));
      ReadsBody(rs[1..], Some(Meant(rs[0])), Flushed(cur, items));
      FlushedSome(Meant(rs[0]), Flushed(cur, items));
    }
  }

  lemma FlushedSome(it: Parsed, items: Items)
    ensures Flushed(Some(it), items) == items[it.Key() := it]
  {
  }

  lemma ReadsNothing(cur: Option<Parsed>, items: Items)
    ensures ReadItems([], cur, items) == Flushed(cur, items)
  {
  }

  lemma ClosesItem(rest: seq<string>, cur: Option<Parsed>, items: Items)
    ensures ReadItems([""] + rest, cur, items) == ReadItems(rest, None, Flushed(cur, items))
  {
    assert ([""] + rest)[0] == "" && ([""] + rest)[1..] == rest;
  }

  predicate PlainHeader(h: Header) {
    OneLine(h.version) && FORMAT <= h.version && OneLine(h.source) && OneLine(h.cSha256) && OneLine(h.ccFlags)
  }

  lemma ReadsHeader(h: Header, body: seq<string>)
    requires body == [] || body[0] == ""
    ensures ReadHeader(HeaderLines(h)[1..] + body, Header(h.version, "", "", ""))
      == (h, if body == [] then [] else body[1..])
  {
    var l1, l2, l3 := "source " + h.source, "c-sha256 " + h.cSha256, "cc-flags " + h.ccFlags;
    assert HeaderLines(h)[1..] + body == [l1] + ([l2] + ([l3] + body));
    var h0 := Header(h.version, "", "", "");
    HeaderStep(l1, [l2] + ([l3] + body), h0);
    StripsOwn("source ", h.source);
    HeaderStep(l2, [l3] + body, h0.(source := h.source));
    StripsOwn("c-sha256 ", h.cSha256);
    NotPrefix("source ", l2, 0);
    HeaderStep(l3, body, h0.(source := h.source, cSha256 := h.cSha256));
    StripsOwn("cc-flags ", h.ccFlags);
    NotPrefix("source ", l3, 0);
    NotPrefix("c-sha256 ", l3, 1);
  }

  lemma HeaderStep(line: string, rest: seq<string>, h: Header)
    requires line != ""
    ensures ReadHeader([line] + rest, h) == ReadHeader(rest, HeaderField(h, line))
  {
    hide HeaderField;
    assert ([line] + rest)[0] == line && ([line] + rest)[1..] == rest;
  }

  /** A printed manifest is read back as it was meant. */
  lemma RoundTrip(h: Header, rs: seq<Record>)
    requires PlainHeader(h) && forall i :: 0 <= i < |rs| ==> PlainRecord(rs[i])
    ensures Read(Printed(h, rs)) == Some((h, ItemsOf(rs, map[])))
  {
    hide ReadHeader, ItemLines, ReadItems, Meant, OneLine, PlainRecord;
    var body := BodyLines(rs);
    HeaderOneLine(h);
    BodyOneLine(rs);
    LinesOfText(HeaderLines(h) + body);
    HeaderThenBody(h, body);
    ReadsHeader(h, body);
    ReadsBody(rs, None, map[]);
    BodyStartsBlank(rs);
  }

  lemma HeaderThenBody(h: Header, body: seq<string>)
    ensures (HeaderLines(h) + body)[0] == h.version && (HeaderLines(h) + body)[1..] == HeaderLines(h)[1..] + body
  {
  }

  lemma OneLineSum(a: string, b: string)
    requires OneLine(a) && OneLine(b)
    ensures OneLine(a + b)
  {
  }

  predicate AllOneLine(lines: seq<string>) { forall i :: 0 <= i < |lines| ==> OneLine(lines[i]) }

  lemma {:induction false} WrappedOneLine(open: string, texts: seq<string>, close: string)
    requires OneLine(open) && OneLine(close) && AllOneLine(texts)
    ensures AllOneLine(Wrapped(open, texts, close))
    decreases |texts|
  {
    hide OneLine;
    if texts != [] {
      OneLineSum(open, texts[0]);
      OneLineSum(open + texts[0], close);
      WrappedOneLine(open, texts[1..], close);
    }
  }

  lemma {:induction false} BoundsOneLine(bounds: seq<(string, string)>)
    requires forall i :: 0 <= i < |bounds| ==> OneLine(bounds[i].0) && OneLine(bounds[i].1)
    ensures AllOneLine(BoundPhrases(bounds))
    decreases |bounds|
  {
    if bounds != [] {
      var (n, r) := bounds[0];
      assert OneLine("parameter `") && OneLine("` is constrained to `") && OneLine("`");
      hide OneLine;
      OneLineSum("parameter `", n);
      OneLineSum("parameter `" + n, "` is constrained to `");
      OneLineSum("parameter `" + n + "` is constrained to `", r);
      OneLineSum("parameter `" + n + "` is constrained to `" + r, "`");
      BoundsOneLine(bounds[1..]);
    }
  }

  lemma {:induction false} JoinedOneLine(names: seq<string>)
    requires AllOneLine(names)
    ensures OneLine(Joined(names))
    decreases |names|
  {
    if |names| > 1 {
      assert OneLine(", ");
      hide OneLine;
      JoinedOneLine(names[1..]);
      OneLineSum(names[0], ", ");
      OneLineSum(names[0] + ", ", Joined(names[1..]));
    }
  }

  lemma ErrorPhraseOneLine(names: seq<string>)
    requires AllOneLine(names)
    ensures OneLine(ErrorPhrase(names))
  {
    assert OneLine("may fail with `!{ ") && OneLine(" }`");
    hide OneLine, Joined;
    JoinedOneLine(names);
    OneLineSum("may fail with `!{ ", Joined(names));
    OneLineSum("may fail with `!{ " + Joined(names), " }`");
  }

  lemma NoPanicOneLine()
    ensures OneLine(NO_PANIC)
  {
    assert OneLine("`@no_panic`") && OneLine(" — proven free of faulting operations");
    hide OneLine;
    OneLineSum("`@no_panic`", " — proven free of faulting operations");
  }

  lemma GuaranteesOneLine(f: Facts)
    requires PlainFacts(f)
    ensures AllOneLine(Guarantees(f))
  {
    assert OneLine("`requires ") && OneLine("`ensures ") && OneLine("`");
    hide OneLine, Wrapped, BoundPhrases, ErrorPhrase;
    WrappedOneLine("`requires ", f.demands, "`");
    WrappedOneLine("`ensures ", f.promises, "`");
    BoundsOneLine(f.bounds);
    NoPanicOneLine();
    if f.errors.Some? { ErrorPhraseOneLine(f.errors.value); }
  }

  lemma ItemOneLine(r: Record)
    requires PlainRecord(r)
    ensures AllOneLine(ItemLines(r))
  {
    HeadOneLine(r);
    DeprecatedOneLine(r.deprecated);
    GuaranteesOneLine(r.facts);
    assert OneLine("  guarantee: ") && OneLine("");
    WrappedOneLine("  guarantee: ", Guarantees(r.facts), "");
    hide OneLine, Wrapped, Guarantees, PlainFacts, DeprecatedLines;
  }

  lemma HeadOneLine(r: Record)
    requires PlainRecord(r)
    ensures AllOneLine([r.kind + " " + r.name, "  vis: " + if r.isPub then "pub" else "priv", "  sig: " + r.sig])
  {
    assert OneLine(" ") && OneLine("  vis: ") && OneLine("pub") && OneLine("priv") && OneLine("  sig: ");
    hide OneLine, PlainFacts;
    OneLineSum(r.kind, " ");
    OneLineSum(r.kind + " ", r.name);
    OneLineSum("  vis: ", if r.isPub then "pub" else "priv");
    OneLineSum("  sig: ", r.sig);
  }

  lemma DeprecatedOneLine(deprecated: Option<string>)
    requires deprecated.Some? ==> OneLine(deprecated.value)
    ensures AllOneLine(DeprecatedLines(deprecated))
  {
    assert OneLine("  deprecated:") && OneLine("  deprecated: ");
    hide OneLine;
    if deprecated.Some? { OneLineSum("  deprecated: ", deprecated.value); }
  }

  lemma {:induction false} BodyOneLine(rs: seq<Record>)
    requires forall i :: 0 <= i < |rs| ==> PlainRecord(rs[i])
    ensures AllOneLine(BodyLines(rs))
    decreases |rs|
  {
    if rs != [] {
      assert OneLine("");
      hide OneLine, ItemLines, PlainRecord;
      ItemOneLine(rs[0]);
      BodyOneLine(rs[1..]);
    }
  }

  lemma HeaderOneLine(h: Header)
    requires PlainHeader(h)
    ensures AllOneLine(HeaderLines(h))
  {
    assert OneLine("source ") && OneLine("c-sha256 ") && OneLine("cc-flags ");
    hide OneLine;
    OneLineSum("source ", h.source);
    OneLineSum("c-sha256 ", h.cSha256);
    OneLineSum("cc-flags ", h.ccFlags);
  }

  lemma BodyStartsBlank(rs: seq<Record>)
    ensures rs != [] ==> BodyLines(rs) != [] && BodyLines(rs)[0] == ""
    ensures ReadItems(if BodyLines(rs) == [] then [] else BodyLines(rs)[1..], None, map[])
      == ReadItems(BodyLines(rs), None, map[])
  {
    if rs != [] {
      hide ItemLines, ReadItems;
      var rest := ItemLines(rs[0]) + BodyLines(rs[1..]);
      assert BodyLines(rs) == [""] + rest;
      ClosesItem(rest, None, map[]);
    }
  }

  /** With keys of their own, every record is found under its key. */
  lemma {:induction false} EveryRecordFound(rs: seq<Record>, items: Items, k: nat)
    requires k < |rs|
    requires forall i, j :: 0 <= i < j < |rs| ==> Meant(rs[i]).Key() != Meant(rs[j]).Key()
    ensures Meant(rs[k]).Key() in ItemsOf(rs, items) && ItemsOf(rs, items)[Meant(rs[k]).Key()] == Meant(rs[k])
    decreases |rs|
  {
    hide Meant;
    var first := Meant(rs[0]);
    var more := items[first.Key() := first];
    if k > 0 {
      EveryRecordFound(rs[1..], more, k - 1);
    } else {
      OthersKeep(rs[1..], more, first.Key());
    }
  }

  lemma {:induction false} OthersKeep(rs: seq<Record>, items: Items, key: string)
    requires key in items && forall i :: 0 <= i < |rs| ==> Meant(rs[i]).Key() != key
    ensures key in ItemsOf(rs, items) && ItemsOf(rs, items)[key] == items[key]
    decreases |rs|
  {
    hide Meant;
    if rs != [] {
      OthersKeep(rs[1..], items[Meant(rs[0]).Key() := Meant(rs[0])], key);
    }
  }
}
