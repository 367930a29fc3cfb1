/** The secret loader's `parse_and_export_yaml`: a pass over the top-level
    scalars of a parsed YAML mapping, then a line-oriented `key: value` pass
    over the same text, every pair exported to the process environment. */
module Secrets {
  import opened Values

  // ---------------------------------------------------------------------
  // Python string primitives: str.isspace, str.strip, str.find, str.split
  // ---------------------------------------------------------------------

  /** Python's `str.isspace` for one character (the Unicode whitespace
      code points that `str.strip()` removes). */
  predicate IsSpace(c: char) {
    c in Whitespace
  }

  /** The characters for which Python's `str.isspace` holds. */
  const Whitespace: set<char> := {
    '\t', '\n', '\U{B}', '\U{C}', '\r', '\U{1C}', '\U{1D}', '\U{1E}', '\U{1F}', ' ',
    '\U{85}', '\U{A0}', '\U{1680}', '\U{2000}', '\U{2001}', '\U{2002}', '\U{2003}', '\U{2004}',
    '\U{2005}', '\U{2006}', '\U{2007}', '\U{2008}', '\U{2009}', '\U{200A}', '\U{2028}', '\U{2029}',
    '\U{202F}', '\U{205F}', '\U{3000}'
  }

  /** Drops leading whitespace. */
  function TrimLeft(s: string): (r: string)
    decreases |s|
  {
    if s != [] && IsSpace(s[0]) then TrimLeft(s[1..]) else s
  }

  /** `TrimLeft(s)` is a suffix of `s`, only whitespace was dropped, and it
      does not start with whitespace. */
  lemma {:induction false} TrimLeftFacts(s: string)
    ensures var r := TrimLeft(s);
            && |r| <= |s| && r == s[|s| - |r|..]
            && (forall k :: 0 <= k < |s| - |r| ==> IsSpace(s[k]))
            && (r == [] || !IsSpace(r[0]))
    decreases |s|
  {
    if s != [] && IsSpace(s[0]) {
      TrimLeftFacts(s[1..]);
    }
  }

  /** Drops trailing whitespace. */
  function TrimRight(s: string): (r: string)
    decreases |s|
  {
    if s != [] && IsSpace(s[|s| - 1]) then TrimRight(s[..|s| - 1]) else s
  }

  /** `TrimRight(s)` is a prefix of `s`, only whitespace was dropped, and it
      does not end with whitespace. */
  lemma {:induction false} TrimRightFacts(s: string)
    ensures var r := TrimRight(s);
            && |r| <= |s| && r == s[..|r|]
            && (forall k :: |r| <= k < |s| ==> IsSpace(s[k]))
            && (r == [] || !IsSpace(r[|r| - 1]))
    decreases |s|
  {
    if s != [] && IsSpace(s[|s| - 1]) {
      TrimRightFacts(s[..|s| - 1]);
    }
  }

  /** Python's `str.strip()`: whitespace removed from both ends. */
  function Strip(s: string): (r: string)
    ensures r == [] || (!IsSpace(r[0]) && !IsSpace(r[|r| - 1]))
  {
    TrimLeftFacts(s);
    TrimRightFacts(TrimLeft(s));
    TrimRight(TrimLeft(s))
  }

  /** `Strip(s)` is the slice of `s` left after whitespace is removed from
      both ends. */
  lemma StripSlice(s: string) returns (i: nat)
    ensures i + |Strip(s)| <= |s| && s[i..i + |Strip(s)|] == Strip(s)
    ensures forall k :: 0 <= k < i ==> IsSpace(s[k])
    ensures forall k :: i + |Strip(s)| <= k < |s| ==> IsSpace(s[k])
  {
    var t := TrimLeft(s);
    TrimLeftFacts(s);
    TrimRightFacts(t);
    i := |s| - |t|;
    assert s[i..i + |Strip(s)|] == t[..|Strip(s)|];
  }

  /** A string with no whitespace at either end is left alone by `Strip`. */
  lemma StripNoOp(s: string)
    requires s == [] || (!IsSpace(s[0]) && !IsSpace(s[|s| - 1]))
    ensures Strip(s) == s
  {
  }

  /** Stripping twice is stripping once. */
  lemma StripIdempotent(s: string)
    ensures Strip(Strip(s)) == Strip(s)
  {
    StripNoOp(Strip(s));
  }

  /** Every character of `Strip(s)` is a character of `s`. */
  lemma StripChars(s: string, c: char)
    requires c in Strip(s)
    ensures c in s
  {
    var r := Strip(s);
    var i := StripSlice(s);
    var j :| 0 <= j < |r| && r[j] == c;
    assert s[i + j] == c;
  }

  /** The position of the first `c` in `s`; `str.split(c, 1)` cuts there,
      so it always yields exactly two parts when `c` occurs. */
  function IndexOf(s: string, c: char): (i: nat)
    requires c in s
    ensures i < |s| && s[i] == c && c !in s[..i]
  {
    if s[0] == c then 0
    else
      var j := IndexOf(s[1..], c);
      assert s[..j + 1] == [s[0]] + s[1..][..j];
      j + 1
  }

  /** Python's `str.split("\n")`: always at least one piece. */
  function SplitLines(s: string): (lines: seq<string>)
    ensures |lines| >= 1
    decreases |s|
  {
    if '\n' !in s then [s]
    else
      var i := IndexOf(s, '\n');
      [s[..i]] + SplitLines(s[i + 1..])
  }

  /** No piece of `SplitLines(s)` holds a newline. */
  lemma {:induction false} SplitLinesNoNewline(s: string)
    ensures forall l :: l in SplitLines(s) ==> '\n' !in l
    decreases |s|
  {
    if '\n' in s {
      var i := IndexOf(s, '\n');
      SplitLinesNoNewline(s[i + 1..]);
    }
  }

  /** `"\n".join(lines)`, the inverse of `SplitLines`. */
  function Join(lines: seq<string>): (text: string) {
    if lines == [] then ""
    else if |lines| == 1 then lines[0]
    else lines[0] + "\n" + Join(lines[1..])
  }

  /** Joining a line onto at least one more puts a newline between them. */
  lemma JoinCons(head: string, rest: seq<string>)
    requires rest != []
    ensures Join([head] + rest) == head + "\n" + Join(rest)
  {
    assert ([head] + rest)[1..] == rest;
  }

  lemma {:induction false} JoinSplit(s: string)
    ensures Join(SplitLines(s)) == s
    decreases |s|
  {
    if '\n' in s {
      var i := IndexOf(s, '\n');
      var rest := SplitLines(s[i + 1..]);
      assert SplitLines(s) == [s[..i]] + rest;
      JoinSplit(s[i + 1..]);
      JoinCons(s[..i], rest);
      CutAt(s, i);
    }
  }

  /** A string is what lies before, at and after a position. */
  lemma CutAt(s: string, i: nat)
    requires i < |s|
    ensures s == s[..i] + [s[i]] + s[i + 1..]
  {
  }

  lemma {:induction false} SplitJoin(lines: seq<string>)
    requires |lines| >= 1
    requires forall l :: l in lines ==> '\n' !in l
    ensures SplitLines(Join(lines)) == lines
  {
    if |lines| > 1 {
      var rest := Join(lines[1..]);
      var s := lines[0] + "\n" + rest;
      assert s[|lines[0]|] == '\n';
      var i := IndexOf(s, '\n');
      assert lines[0] in lines;
      assert s[..|lines[0]| + 1][|lines[0]|] == '\n';
      assert i == |lines[0]|;
      assert s[..i] == lines[0];
      assert s[i + 1..] == rest;
      SplitJoin(lines[1..]);
    }
  }

  // ---------------------------------------------------------------------
  // Writing the environment
  // ---------------------------------------------------------------------

  /** The errors `os.environ[key] = value` raises. */
  datatype EnvError = ValueError | OSError

  /** The error writing `key` and `value` to the environment raises, if any:
      a NUL in either, or an `=` in the key, is a `ValueError`; an empty key
      is refused by `setenv`, an `OSError`. A write that raises changes
      nothing. */
  function EnvWrite(key: string, value: string): (r: Option<EnvError>)
    ensures r.None? <==> key != "" && '=' !in key && '\0' !in key && '\0' !in value
    ensures r == Some(OSError) <==> key == "" && '\0' !in value
  {
    if '\0' in key || '\0' in value || '=' in key then Some(ValueError)
    else if key == "" then Some(OSError)
    else None
  }

  // ---------------------------------------------------------------------
  // The line pass
  // ---------------------------------------------------------------------

  /** One line of the line pass: strip it; skip comments, empty lines and
      lines without `:`; split at the first `:`, strip both halves and keep
      the pair only when both are non-empty. */
  function ParseLine(line: string): (p: Option<(string, string)>)
    ensures Strip(line) == [] || Strip(line)[0] == '#' || ':' !in Strip(line) ==> p == None
    ensures p.Some? ==> p.value.0 != "" && p.value.1 != ""
  {
    var t := Strip(line);
    if t == [] || t[0] == '#' || ':' !in t then None
    else
      var i := IndexOf(t, ':');
      var key := Strip(t[..i]);
      var value := Strip(t[i + 1..]);
      if key != "" && value != "" then Some((key, value)) else None
  }

  /** A pair read from a line has a non-empty key with no `:` and no leading
      `#` and a non-empty value, both already stripped. */
  lemma ParseLineShape(line: string)
    requires ParseLine(line).Some?
    ensures var (k, v) := ParseLine(line).value;
            && k != "" && v != ""
            && ':' !in k && k[0] != '#'
            && Strip(k) == k && Strip(v) == v
  {
    var t := Strip(line);
    var i := IndexOf(t, ':');
    var key := Strip(t[..i]);
    if ':' in key { StripChars(t[..i], ':'); }
    assert i > 0;
    assert TrimLeft(t[..i]) == t[..i];
    TrimRightFacts(t[..i]);
    assert key[0] == t[0];
    StripIdempotent(t[..i]);
    StripIdempotent(t[i + 1..]);
  }

  /** What one line contributes: the pair it parses to, unless writing that
      pair to the environment raises; the loop catches that error and skips
      the line. */
  function LineEntry(line: string): (p: Option<(string, string)>)
    ensures p.Some? <==> ParseLine(line).Some? && EnvWrite(ParseLine(line).value.0, ParseLine(line).value.1).None?
    ensures p.Some? ==> p == ParseLine(line)
  {
    var parsed := ParseLine(line);
    if parsed.Some? && EnvWrite(parsed.value.0, parsed.value.1).None? then parsed else None
  }

  /** The line pass never writes an empty key, so an environment write there
      can only raise the `ValueError` its `except` clause catches. */
  lemma LineWriteErrorIsCaught(line: string)
    requires ParseLine(line).Some?
    ensures EnvWrite(ParseLine(line).value.0, ParseLine(line).value.1) in {None, Some(ValueError)}
  {
    ParseLineShape(line);
  }

  /** The line pass's results, one per line, in line order. */
  function ParsedLines(lines: seq<string>): (ps: seq<Option<(string, string)>>)
    ensures |ps| == |lines|
  {
    if lines == [] then [] else ParsedLines(lines[..|lines| - 1]) + [LineEntry(lines[|lines| - 1])]
  }

  lemma {:induction false} ParsedLinesAt(lines: seq<string>, i: nat)
    requires i < |lines|
    ensures ParsedLines(lines)[i] == LineEntry(lines[i])
  {
    var n := |lines| - 1;
    if i < n {
      ParsedLinesAt(lines[..n], i);
    }
  }

  /** A dictionary built by assigning the read pairs in order. */
  function Assign(ps: seq<Option<(string, string)>>): (m: map<string, string>) {
    if ps == [] then map[]
    else
      var m0 := Assign(ps[..|ps| - 1]);
      match ps[|ps| - 1]
      case None => m0
      case Some((k, v)) => m0[k := v]
  }

  /** True when `p` is a pair with key `k`. */
  predicate HasKey(p: Option<(string, string)>, k: string) {
    p.Some? && p.value.0 == k
  }

  /** A key is assigned exactly when some pair has it, and its value is the
      value of such a pair. */
  lemma {:induction false} AssignKeys(ps: seq<Option<(string, string)>>, k: string)
    ensures k in Assign(ps) <==> exists i :: 0 <= i < |ps| && HasKey(ps[i], k)
    ensures k in Assign(ps) ==> exists i :: 0 <= i < |ps| && ps[i] == Some((k, Assign(ps)[k]))
  {
    if ps != [] {
      var n := |ps| - 1;
      var init := ps[..n];
      AssignKeys(init, k);
      if !HasKey(ps[n], k) {
        if k in Assign(init) {
          var i :| 0 <= i < |init| && init[i] == Some((k, Assign(init)[k]));
          assert ps[i] == init[i];
        }
        if exists i :: 0 <= i < |ps| && HasKey(ps[i], k) {
          var i :| 0 <= i < |ps| && HasKey(ps[i], k);
          assert i < n && init[i] == ps[i];
        }
      }
    }
  }

  /** For a repeated key the last pair wins. */
  lemma {:induction false} AssignLastWins(ps: seq<Option<(string, string)>>, i: nat, k: string, v: string)
    requires i < |ps| && ps[i] == Some((k, v))
    requires forall j :: i < j < |ps| ==> !HasKey(ps[j], k)
    ensures k in Assign(ps) && Assign(ps)[k] == v
  {
    var n := |ps| - 1;
    if i < n {
      assert !HasKey(ps[n], k);
      var init := ps[..n];
      assert init[i] == ps[i];
      AssignLastWins(init, i, k, v);
    }
  }

  /** The pairs the line pass exports, assigned in line order. */
  function LinePairs(lines: seq<string>): (m: map<string, string>) {
    Assign(ParsedLines(lines))
  }

  /** A key is exported by the line pass exactly when some line defines it
      and the environment accepts that line's pair; every exported key is
      non-empty and free of `:`, every exported value non-empty, and the
      environment accepts every exported pair. */
  lemma LinePairsKeys(lines: seq<string>, k: string)
    ensures k in LinePairs(lines) <==> exists i :: 0 <= i < |lines| && HasKey(LineEntry(lines[i]), k)
    ensures k in LinePairs(lines) ==>
              && k != "" && ':' !in k && LinePairs(lines)[k] != ""
              && EnvWrite(k, LinePairs(lines)[k]).None?
  {
    var ps := ParsedLines(lines);
    AssignKeys(ps, k);
    if k in LinePairs(lines) {
      var i :| 0 <= i < |ps| && ps[i] == Some((k, Assign(ps)[k]));
      ParsedLinesAt(lines, i);
      ParseLineShape(lines[i]);
      assert HasKey(LineEntry(lines[i]), k);
    }
    if exists i :: 0 <= i < |lines| && HasKey(LineEntry(lines[i]), k) {
      var i :| 0 <= i < |lines| && HasKey(LineEntry(lines[i]), k);
      ParsedLinesAt(lines, i);
      assert HasKey(ps[i], k);
    }
  }

  /** For a key defined on several lines the last such line the environment
      accepts wins. */
  lemma LinePairsLastWins(lines: seq<string>, i: nat, k: string, v: string)
    requires i < |lines| && LineEntry(lines[i]) == Some((k, v))
    requires forall j :: i < j < |lines| ==> !HasKey(LineEntry(lines[j]), k)
    ensures k in LinePairs(lines) && LinePairs(lines)[k] == v
  {
    var ps := ParsedLines(lines);
    forall j | i < j < |ps| ensures !HasKey(ps[j], k) {
      ParsedLinesAt(lines, j);
    }
    ParsedLinesAt(lines, i);
    AssignLastWins(ps, i, k, v);
  }

  /** A line whose pair the environment refuses exports nothing, and a later
      refused line leaves an earlier value of its key in place. */
  lemma RefusedLineSkipped(lines: seq<string>, line: string)
    requires ParseLine(line).Some? && EnvWrite(ParseLine(line).value.0, ParseLine(line).value.1).Some?
    ensures LinePairs(lines + [line]) == LinePairs(lines)
  {
    assert (lines + [line])[..|lines|] == lines;
  }

  // ---------------------------------------------------------------------
  // The mapping pass and the whole parse
  // ---------------------------------------------------------------------

  /** A top-level YAML value, already rendered by `str()` when it is a
      string, integer, float or boolean. */
  datatype YamlValue = Scalar(rendered: string) | NonScalar

  /** What `yaml.safe_load` gave: it raised, it returned something other
      than a mapping, or it returned a mapping (keys rendered by `str()`,
      in the mapping's iteration order). */
  datatype YamlParse = YamlError | NotMapping | Mapping(entries: seq<(string, YamlValue)>)

  /** True when entry `e` is a scalar whose stripped key is `k`. */
  predicate ScalarKey(e: (string, YamlValue), k: string) {
    e.1.Scalar? && Strip(e.0) == k
  }

  /** The pairs the mapping pass exports, assigned in iteration order:
      stripped key and stripped value, with no emptiness check. */
  function MappingPairs(entries: seq<(string, YamlValue)>): (m: map<string, string>) {
    if entries == [] then map[]
    else
      var m0 := MappingPairs(entries[..|entries| - 1]);
      var (key, value) := entries[|entries| - 1];
      if value.Scalar? then m0[Strip(key) := Strip(value.rendered)] else m0
  }

  /** A key is exported by the mapping pass exactly when some scalar entry
      has it (after stripping). */
  lemma {:induction false} MappingPairsKeys(entries: seq<(string, YamlValue)>, k: string)
    ensures k in MappingPairs(entries) <==>
              exists i :: 0 <= i < |entries| && entries[i].1.Scalar? && Strip(entries[i].0) == k
  {
    if entries != [] {
      var n := |entries| - 1;
      var init := entries[..n];
      MappingPairsKeys(init, k);
      if exists i :: 0 <= i < |entries| && entries[i].1.Scalar? && Strip(entries[i].0) == k {
        var i :| 0 <= i < |entries| && entries[i].1.Scalar? && Strip(entries[i].0) == k;
        if i < n { assert init[i] == entries[i]; }
      }
      if k in MappingPairs(init) {
        var i :| 0 <= i < |init| && init[i].1.Scalar? && Strip(init[i].0) == k;
        assert entries[i] == init[i];
      }
    }
  }

  /** The value exported for a key is the stripped value of the last scalar
      entry whose stripped key it is. */
  lemma {:induction false} MappingPairsLastWins(entries: seq<(string, YamlValue)>, i: nat, k: string)
    requires i < |entries| && ScalarKey(entries[i], k)
    requires forall j :: i < j < |entries| ==> !ScalarKey(entries[j], k)
    ensures k in MappingPairs(entries) && MappingPairs(entries)[k] == Strip(entries[i].1.rendered)
  {
    var n := |entries| - 1;
    if i < n {
      assert !ScalarKey(entries[n], k);
      var init := entries[..n];
      assert init[i] == entries[i];
      MappingPairsLastWins(init, i, k);
    }
  }

  /** The mapping pass exports an empty scalar too: it has no emptiness check. */
  lemma MappingKeepsEmptyValues(key: string)
    ensures MappingPairs([(key, Scalar(""))]) == map[Strip(key) := ""]
  {
  }

  /** A scalar entry whose stripped pair the environment refuses: writing it
      raises, and nothing in the mapping pass catches the error. */
  predicate Refused(e: (string, YamlValue)) {
    e.1.Scalar? && EnvWrite(Strip(e.0), Strip(e.1.rendered)).Some?
  }

  /** The position of the first refused entry, or the number of entries
      when the environment accepts them all. */
  function FirstRefused(entries: seq<(string, YamlValue)>): (i: nat)
    ensures i <= |entries|
    ensures forall j :: 0 <= j < i ==> !Refused(entries[j])
    ensures i < |entries| ==> Refused(entries[i])
  {
    if entries == [] || Refused(entries[0]) then 0
    else
      var i := FirstRefused(entries[1..]);
      assert forall j :: 1 <= j <= i ==> entries[j] == entries[1..][j - 1];
      1 + i
  }

  /** The environment accepts every pair the mapping pass writes before its
      first refused entry. */
  lemma {:induction false} MappingPairsAccepted(entries: seq<(string, YamlValue)>, k: string)
    requires forall j :: 0 <= j < |entries| ==> !Refused(entries[j])
    requires k in MappingPairs(entries)
    ensures EnvWrite(k, MappingPairs(entries)[k]).None?
  {
    var n := |entries| - 1;
    var init := entries[..n];
    if !ScalarKey(entries[n], k) {
      assert forall j :: 0 <= j < n ==> init[j] == entries[j];
      MappingPairsAccepted(init, k);
    }
  }

  /** How `parse_and_export_yaml` ends: it returns the exported pairs, or an
      environment write in the mapping pass raises once `pairs` have been
      exported. Either way `pairs` is what was written to the environment. */
  datatype Outcome = Returns(pairs: map<string, string>) | Raises(pairs: map<string, string>)

  /** The outcome of `parse_and_export_yaml`: the mapping pass (only when
      YAML gave a mapping) overridden by the line pass, unless the mapping
      pass meets an entry the environment refuses. */
  function Exported(content: string, yaml: YamlParse): (o: Outcome) {
    if yaml.Mapping? && FirstRefused(yaml.entries) < |yaml.entries| then
      Raises(MappingPairs(yaml.entries[..FirstRefused(yaml.entries)]))
    else
      Returns((if yaml.Mapping? then MappingPairs(yaml.entries) else map[]) + LinePairs(SplitLines(content)))
  }

  /** When YAML fails or gives a non-mapping, the result is the line pass alone. */
  lemma FallbackIsLinePass(content: string, yaml: YamlParse)
    requires !yaml.Mapping?
    ensures Exported(content, yaml) == Returns(LinePairs(SplitLines(content)))
  {
  }

  /** The parse raises exactly when some scalar entry of the mapping is
      refused by the environment; it then has written the pairs of the
      entries before the first such entry, and no line pair. */
  lemma MappingRaises(content: string, entries: seq<(string, YamlValue)>)
    ensures Exported(content, Mapping(entries)).Raises? <==>
              exists i :: 0 <= i < |entries| && Refused(entries[i])
    ensures Exported(content, Mapping(entries)).Raises? ==>
              exists i :: && 0 <= i < |entries| && Refused(entries[i])
                          && (forall j :: 0 <= j < i ==> !Refused(entries[j]))
                          && Exported(content, Mapping(entries)).pairs == MappingPairs(entries[..i])
  {
    if exists i :: 0 <= i < |entries| && Refused(entries[i]) {
      var i :| 0 <= i < |entries| && Refused(entries[i]);
      assert FirstRefused(entries) <= i;
    }
  }

  /** Whatever the outcome, the environment accepted every pair written. */
  lemma ExportedAccepted(content: string, yaml: YamlParse, k: string)
    requires k in Exported(content, yaml).pairs
    ensures EnvWrite(k, Exported(content, yaml).pairs[k]).None?
  {
    var o := Exported(content, yaml);
    var lines := SplitLines(content);
    if k in LinePairs(lines) && o.Returns? {
      LinePairsKeys(lines, k);
    } else if yaml.Mapping? {
      var entries := yaml.entries;
      var i := FirstRefused(entries);
      var prefix := entries[..i];
      assert forall j :: 0 <= j < |prefix| ==> prefix[j] == entries[j];
      if i == |entries| {
        assert prefix == entries;
      }
      MappingPairsAccepted(prefix, k);
    }
  }

  /** A line pair overrides a mapping pair with the same key; a mapping pair
      survives only for keys no line defines; the parse returns exactly when
      the environment accepts every scalar entry. */
  lemma LinesOverrideMapping(content: string, entries: seq<(string, YamlValue)>, k: string)
    ensures Exported(content, Mapping(entries)).Returns? <==> FirstRefused(entries) == |entries|
    ensures var o := Exported(content, Mapping(entries));
            var lp := LinePairs(SplitLines(content));
            && (o.Returns? && k in lp ==> o.pairs[k] == lp[k])
            && (o.Returns? && k !in lp ==>
                  && (k in o.pairs <==> k in MappingPairs(entries))
                  && (k in MappingPairs(entries) ==> o.pairs[k] == MappingPairs(entries)[k]))
  {
  }

  // ---------------------------------------------------------------------
  // Round trip: pairs written as `key: value` lines are read back
  // ---------------------------------------------------------------------

  /** A pair the line pass can carry: non-empty, already stripped, no `:`
      in the key, no leading `#`, no newline, and accepted by the
      environment. */
  predicate WellFormed(p: (string, string)) {
    var (k, v) := p;
    && k != "" && v != ""
    && Strip(k) == k && Strip(v) == v
    && ':' !in k && k[0] != '#'
    && '\n' !in k && '\n' !in v
    && '=' !in k && '\0' !in k && '\0' !in v
  }

  function FormatLine(p: (string, string)): (line: string) {
    p.0 + ": " + p.1
  }

  function FormatLines(ps: seq<(string, string)>): (lines: seq<string>)
    ensures |lines| == |ps|
  {
    if ps == [] then [] else FormatLines(ps[..|ps| - 1]) + [FormatLine(ps[|ps| - 1])]
  }

  /** The map of a list of pairs when they are assigned in order. */
  function PairsMap(ps: seq<(string, string)>): (m: map<string, string>) {
    if ps == [] then map[] else PairsMap(ps[..|ps| - 1])[ps[|ps| - 1].0 := ps[|ps| - 1].1]
  }

  lemma ParseFormatLine(p: (string, string))
    requires WellFormed(p)
    ensures ParseLine(FormatLine(p)) == Some(p)
    ensures LineEntry(FormatLine(p)) == Some(p)
  {
    var (k, v) := p;
    var t := FormatLine(p);
    assert t == k + ": " + v;
    assert t[0] == k[0] && t[|t| - 1] == v[|v| - 1];
    assert !IsSpace(k[0]) && !IsSpace(v[|v| - 1]);
    StripNoOp(t);
    assert t[|k|] == ':';
    var i := IndexOf(t, ':');
    assert t[..|k| + 1][|k|] == ':';
    assert i == |k|;
    assert t[..i] == k;
    assert t[i + 1..] == " " + v;
    assert TrimLeft(" " + v) == TrimLeft(v);
  }

  lemma {:induction false} FormatLinesNoNewline(ps: seq<(string, string)>)
    requires forall j :: 0 <= j < |ps| ==> WellFormed(ps[j])
    ensures forall l :: l in FormatLines(ps) ==> '\n' !in l
  {
    if ps != [] {
      FormatLinesNoNewline(ps[..|ps| - 1]);
      var p := ps[|ps| - 1];
      assert FormatLine(p) == p.0 + ": " + p.1;
    }
  }

  lemma {:induction false} LinePairsFormatted(ps: seq<(string, string)>)
    requires forall j :: 0 <= j < |ps| ==> WellFormed(ps[j])
    ensures LinePairs(FormatLines(ps)) == PairsMap(ps)
  {
    if ps != [] {
      var n := |ps| - 1;
      var lines := FormatLines(ps);
      assert lines[..n] == FormatLines(ps[..n]);
      LinePairsFormatted(ps[..n]);
      ParseFormatLine(ps[n]);
    }
  }

  lemma EmptyTextExportsNothing()
    ensures LinePairs(SplitLines("")) == map[]
  {
    assert SplitLines("") == [""];
    var ps := ParsedLines([""]);
    assert ps[0] == LineEntry("");
    assert Strip("") == "";
    assert ps == [None];
    assert ps[..0] == [];
  }

  /** Writing well-formed pairs as `key: value` lines and parsing the text
      (with YAML failing) gives back the pairs, last occurrence winning. */
  lemma ExportFormatted(ps: seq<(string, string)>)
    requires forall j :: 0 <= j < |ps| ==> WellFormed(ps[j])
    ensures Exported(Join(FormatLines(ps)), YamlError) == Returns(PairsMap(ps))
  {
    var lines := FormatLines(ps);
    var text := Join(lines);
    FallbackIsLinePass(text, YamlError);
    if ps == [] {
      assert text == "";
      EmptyTextExportsNothing();
    } else {
      FormatLinesNoNewline(ps);
      SplitJoin(lines);
      assert SplitLines(text) == lines;
      LinePairsFormatted(ps);
    }
  }

  /** A quoted YAML value: the mapping pass reads `x`, but the line pass
      keeps the quotes as part of the value and wins. */
  lemma QuotedValueKeepsQuotes(k: string, x: string)
    requires k != "" && Strip(k) == k && ':' !in k && k[0] != '#' && '\n' !in k
    requires '=' !in k && '\0' !in k && '\0' !in x && '\n' !in x
    ensures var q := "\"" + x + "\"";
            && Exported(FormatLine((k, q)), Mapping([(k, Scalar(x))])).Returns?
            && Exported(FormatLine((k, q)), Mapping([(k, Scalar(x))])).pairs[k] == q
  {
    var q := "\"" + x + "\"";
    StripNoOp(q);
    if '\0' in Strip(x) { StripChars(x, '\0'); }
    assert !Refused((k, Scalar(x)));
    assert WellFormed((k, q));
    ParseFormatLine((k, q));
    var t := FormatLine((k, q));
    assert t == k + ": " + q;
    assert '\n' !in t;
    assert SplitLines(t) == [t];
    LinePairsLastWins([t], 0, k, q);
  }

  /** Assigning a key after a union is assigning it in the right operand. */
  lemma UpdateUnion(a: map<string, string>, b: map<string, string>, k: string, v: string)
    ensures (a + b)[k := v] == a + b[k := v]
  {
  }

  /** Writing two maps in turn is writing their union. */
  lemma UnionAssociative(a: map<string, string>, b: map<string, string>, c: map<string, string>)
    ensures (a + b) + c == a + (b + c)
  {
  }

  // ---------------------------------------------------------------------
  // The process whose environment is written
  // ---------------------------------------------------------------------

  /** The running process; `environ` is `os.environ`. */
  class Process {
    var environ: map<string, string>

    constructor (environ: map<string, string>)
      ensures this.environ == environ
    {
      this.environ := environ;
    }

    /** `parse_and_export_yaml`: returns the exported pairs, or raises when
        the environment refuses a mapping pair; either way it writes the
        pairs of the outcome, and nothing else, to the environment. */
    method ParseAndExportYaml(content: string, yaml: YamlParse) returns (outcome: Outcome)
      modifies this`environ
      ensures outcome == Exported(content, yaml)
      ensures environ == old(environ) + outcome.pairs
    {
      var fromMapping := map[];
      if yaml.Mapping? {
        var raised;
        fromMapping, raised := ExportMapping(yaml.entries);
        if raised {
          return Raises(fromMapping);
        }
        assert yaml.entries[..|yaml.entries|] == yaml.entries;
      }
      var fromLines := ExportLines(SplitLines(content));
      UnionAssociative(old(environ), fromMapping, fromLines);
      outcome := Returns(fromMapping + fromLines);
    }

    /** The mapping pass: each scalar entry, stripped, written in order,
        until a write raises. */
    method ExportMapping(entries: seq<(string, YamlValue)>) returns (exported: map<string, string>, raised: bool)
      modifies this`environ
      ensures raised <==> FirstRefused(entries) < |entries|
      ensures exported == MappingPairs(entries[..FirstRefused(entries)])
      ensures environ == old(environ) + exported
    {
      exported := map[];
      var i := 0;
      while i < |entries|
        invariant i <= FirstRefused(entries)
        invariant exported == MappingPairs(entries[..i])
        invariant environ == old(environ) + exported
      {
        var (key, value) := entries[i];
        if value.Scalar? {
          var envKey := Strip(key);
          var envValue := Strip(value.rendered);
          if EnvWrite(envKey, envValue).Some? {
            return exported, true;
          }
          UpdateUnion(old(environ), exported, envKey, envValue);
          environ := environ[envKey := envValue];
          exported := exported[envKey := envValue];
        }
        assert entries[..i + 1][..i] == entries[..i];
        i := i + 1;
      }
      raised := false;
    }

    /** The line pass: each `key: value` line, stripped, written in order;
        a line whose write raises `ValueError` is skipped. */
    method ExportLines(lines: seq<string>) returns (exported: map<string, string>)
      modifies this`environ
      ensures exported == LinePairs(lines)
      ensures environ == old(environ) + exported
    {
      exported := map[];
      for j := 0 to |lines|
        invariant exported == Assign(ParsedLines(lines[..j]))
        invariant environ == old(environ) + exported
      {
        var parsed := ParseLine(lines[j]);
        assert lines[..j + 1][..j] == lines[..j];
        assert ParsedLines(lines[..j + 1]) == ParsedLines(lines[..j]) + [LineEntry(lines[j])];
        if parsed.Some? {
          var (key, value) := parsed.value;
          LineWriteErrorIsCaught(lines[j]);
          match EnvWrite(key, value)
          case None =>
            UpdateUnion(old(environ), exported, key, value);
            environ := environ[key := value];
            exported := exported[key := value];
          case Some(ValueError) =>  // `except ValueError: continue`
          case Some(OSError) =>  // the key is never empty here
            assert false;
        }
        assert (ParsedLines(lines[..j]) + [LineEntry(lines[j])])[..j] == ParsedLines(lines[..j]);
      }
      assert lines[..|lines|] == lines;
    }
  }
}
