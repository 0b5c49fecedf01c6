/**
 * The host-to-pipeline-source cache: a loosely CSV table resource read
 * once into a map, looked up with the current host name, with the label
 * `jenkins-unmapped` whenever no usable mapping exists.
 */
module HostnameMapping {
  import opened Wrappers
  import opened JavaText

  const DefaultPipelineSource := "jenkins-unmapped"

  // ---------------------------------------------------------------------
  // The CSV line tokenizer

  /**
   * The untrimmed fields of `s` when reading starts in quote mode
   * `inQuotes`: every `"` toggles the mode and is dropped (a doubled quote
   * is no escape), a comma outside quotes ends a field, any other char
   * belongs to the current field.
   */
  function RawFields(s: string, inQuotes: bool): (r: seq<string>)
    ensures |r| >= 1
  {
    if s == [] then [""]
    else if s[0] == '"' then RawFields(s[1..], !inQuotes)
    else if s[0] == ',' && !inQuotes then [""] + RawFields(s[1..], inQuotes)
    else
      var rest := RawFields(s[1..], inQuotes);
      [[s[0]] + rest[0]] + rest[1..]
  }

  function TrimAll(fields: seq<string>): (r: seq<string>)
    ensures |r| == |fields|
    ensures forall k :: 0 <= k < |fields| ==> r[k] == Trim(fields[k])
  {
    seq(|fields|, k requires 0 <= k < |fields| => Trim(fields[k]))
  }

  /** parseCsvLine: no fields for a blank line, else the trimmed raw fields. */
  function CsvFields(line: string): seq<string>
  {
    if IsBlank(line) then [] else TrimAll(RawFields(line, false))
  }

  /**
   * What parseCsvLine's loop keeps: the fields already closed (`done`, as
   * yet untrimmed), the field being built and the rest of the line read in
   * the current quote mode together make up the fields of the whole line.
   */
  ghost predicate ScanInvariant(line: string, i: nat, inQuotes: bool, done: seq<string>, current: string)
    requires i <= |line|
  {
    var rest := RawFields(line[i..], inQuotes);
    RawFields(line, false) == done + [current + rest[0]] + rest[1..]
  }

  lemma {:induction false} ScanStep(line: string, i: nat, inQuotes: bool, done: seq<string>, current: string)
    requires i < |line| && ScanInvariant(line, i, inQuotes, done, current)
    ensures var c := line[i];
      if c == '"' then ScanInvariant(line, i + 1, !inQuotes, done, current)
      else if c == ',' && !inQuotes then ScanInvariant(line, i + 1, inQuotes, done + [current], "")
      else ScanInvariant(line, i + 1, inQuotes, done, current + [c])
  {
    var c := line[i];
    assert line[i..][0] == c && line[i..][1..] == line[i + 1..];
    var next := RawFields(line[i + 1..], inQuotes);
    if c == '"' {
    } else if c == ',' && !inQuotes {
      assert RawFields(line[i..], inQuotes) == [""] + next;
      assert [""] + next == [""] + ([next[0]] + next[1..]);
      assert current + "" == current && "" + next[0] == next[0];
      assert next == [next[0]] + next[1..];
      assert done + [current + ""] + next == (done + [current]) + ["" + next[0]] + next[1..];
    } else {
      assert RawFields(line[i..], inQuotes) == [[c] + next[0]] + next[1..];
      assert current + ([c] + next[0]) == (current + [c]) + next[0];
    }
  }

  lemma {:induction false} ScanStart(line: string)
    ensures ScanInvariant(line, 0, false, [], "")
  {
    assert line[0..] == line;
    var first := RawFields(line, false);
    assert "" + first[0] == first[0];
    assert first == [first[0]] + first[1..];
  }

  lemma {:induction false} ScanEnd(line: string, inQuotes: bool, done: seq<string>, current: string)
    requires ScanInvariant(line, |line|, inQuotes, done, current)
    ensures RawFields(line, false) == done + [current]
  {
    assert line[|line|..] == [];
    var rest := RawFields(line[|line|..], inQuotes);
    assert rest == [""];
    assert current + rest[0] == current && rest[1..] == [];
  }

  lemma {:induction false} TrimAllSnoc(done: seq<string>, current: string)
    ensures TrimAll(done) + [Trim(current)] == TrimAll(done + [current])
  {
  }

  /** parseCsvLine's character loop, proved to compute CsvFields. */
  method ParseCsvLine(line: string) returns (fields: seq<string>)
    ensures fields == CsvFields(line)
  {
    if IsBlank(line) {
      return [];
    }
    var values: seq<string> := [];
    var current: string := "";
    var inQuotes := false;
    ghost var done: seq<string> := [];
    var i := 0;
    ScanStart(line);
    while i < |line|
      invariant 0 <= i <= |line|
      invariant values == TrimAll(done)
      invariant ScanInvariant(line, i, inQuotes, done, current)
    {
      var c := line[i];
      ScanStep(line, i, inQuotes, done, current);
      if c == '"' {
        inQuotes := !inQuotes;
      } else if c == ',' && !inQuotes {
        TrimAllSnoc(done, current);
        values := values + [Trim(current)];
        done := done + [current];
        current := "";
      } else {
        current := current + [c];
      }
      i := i + 1;
    }
    ScanEnd(line, inQuotes, done, current);
    TrimAllSnoc(done, current);
    values := values + [Trim(current)];
    fields := values;
  }

  /** The number of `"` in `s`. */
  function QuoteCount(s: string): nat
  {
    if s == [] then 0 else QuoteCount(s[..|s| - 1]) + (if s[|s| - 1] == '"' then 1 else 0)
  }

  /** The number of commas in s[..n] that have an even number of quotes before them. */
  function CommasOutsideQuotes(s: string, n: nat): nat
    requires n <= |s|
  {
    if n == 0 then 0
    else
      var here := if s[n - 1] == ',' && QuoteCount(s[..n - 1]) % 2 == 0 then 1 else 0;
      CommasOutsideQuotes(s, n - 1) + here
  }

  lemma {:induction false} FieldCountFrom(s: string, j: nat)
    requires j <= |s|
    ensures |RawFields(s[j..], QuoteCount(s[..j]) % 2 == 1)| ==
      1 + CommasOutsideQuotes(s, |s|) - CommasOutsideQuotes(s, j)
    decreases |s| - j
  {
    if j < |s| {
      FieldCountFrom(s, j + 1);
      var c := s[j];
      assert s[j..][0] == c && s[j..][1..] == s[j + 1..];
      assert s[..j + 1][..j] == s[..j];
      assert QuoteCount(s[..j + 1]) == QuoteCount(s[..j]) + (if c == '"' then 1 else 0);
      MonotoneCommas(s, j + 1, |s|);
    } else {
      assert s[j..] == [];
    }
  }

  lemma {:induction false} MonotoneCommas(s: string, m: nat, n: nat)
    requires m <= n <= |s|
    ensures CommasOutsideQuotes(s, m) <= CommasOutsideQuotes(s, n)
    decreases n - m
  {
    if m < n {
      MonotoneCommas(s, m, n - 1);
    }
  }

  /** A non-blank line has one field more than it has commas outside quotes. */
  lemma {:induction false} CsvFieldCount(line: string)
    ensures IsBlank(line) ==> CsvFields(line) == []
    ensures !IsBlank(line) ==> |CsvFields(line)| == 1 + CommasOutsideQuotes(line, |line|)
  {
    if !IsBlank(line) {
      FieldCountFrom(line, 0);
      assert line[0..] == line && line[..0] == [];
      var raw := RawFields(line, false);
      assert |raw| == 1 + CommasOutsideQuotes(line, |line|);
      assert CsvFields(line) == TrimAll(raw);
    }
  }

  lemma {:induction false} RawFieldsQuoteFree(s: string, inQuotes: bool)
    ensures forall k :: 0 <= k < |RawFields(s, inQuotes)| ==> '"' !in RawFields(s, inQuotes)[k]
  {
    if s != [] {
      RawFieldsQuoteFree(s[1..], if s[0] == '"' then !inQuotes else inQuotes);
    }
  }

  /** No field keeps a quote char, and every field is already trimmed. */
  lemma {:induction false} CsvFieldsClean(line: string)
    ensures forall k :: 0 <= k < |CsvFields(line)| ==>
      '"' !in CsvFields(line)[k] && Trim(CsvFields(line)[k]) == CsvFields(line)[k]
  {
    if !IsBlank(line) {
      var raw := RawFields(line, false);
      RawFieldsQuoteFree(line, false);
      forall k | 0 <= k < |raw|
        ensures '"' !in Trim(raw[k]) && Trim(Trim(raw[k])) == Trim(raw[k])
      {
        TrimIdempotent(raw[k]);
        if '"' in Trim(raw[k]) {
          TrimChars(raw[k], '"');
        }
      }
    }
  }

  /** The fields joined back with commas. */
  function JoinCommas(fields: seq<string>): string
    requires |fields| >= 1
  {
    if |fields| == 1 then fields[0] else fields[0] + [','] + JoinCommas(fields[1..])
  }

  /** `s` with every `"` removed. */
  function WithoutQuotes(s: string): string
  {
    if s == [] then [] else (if s[0] == '"' then [] else [s[0]]) + WithoutQuotes(s[1..])
  }

  lemma {:induction false} JoinPrepend(c: char, fields: seq<string>)
    requires |fields| >= 1
    ensures JoinCommas([[c] + fields[0]] + fields[1..]) == [c] + JoinCommas(fields)
  {
    var g := [[c] + fields[0]] + fields[1..];
    assert g[0] == [c] + fields[0] && |g| == |fields|;
    if |fields| > 1 {
      assert g[1..] == fields[1..];
      var tail := [','] + JoinCommas(fields[1..]);
      assert JoinCommas(g) == ([c] + fields[0]) + tail;
      assert JoinCommas(fields) == fields[0] + tail;
      assert ([c] + fields[0]) + tail == [c] + (fields[0] + tail);
    }
  }

  /**
   * Splitting loses nothing but the quotes: the fields joined by commas
   * give back the line without its quote chars, so a comma inside quotes
   * stays inside its field.
   */
  lemma {:induction false} RawFieldsJoin(s: string, inQuotes: bool)
    ensures JoinCommas(RawFields(s, inQuotes)) == WithoutQuotes(s)
  {
    if s != [] {
      var q' := if s[0] == '"' then !inQuotes else inQuotes;
      RawFieldsJoin(s[1..], q');
      var rest := RawFields(s[1..], q');
      if s[0] == '"' {
      } else if s[0] == ',' && !inQuotes {
        assert ([""] + rest)[1..] == rest;
      } else {
        JoinPrepend(s[0], rest);
      }
    }
  }

  /**
   * A quoted comma stays in its field: `"x",y` reads as `x` and `y` even
   * when `x` holds commas.
   */
  lemma {:induction false} QuotedCommaField(x: string, y: string)
    requires '"' !in x && '"' !in y && ',' !in y && Trim(x) == x && Trim(y) == y
    ensures CsvFields(['"'] + x + ['"', ','] + y) == [x, y]
  {
    var line := ['"'] + x + ['"', ','] + y;
    QuotedFirstFields(x, y);
    BlankIff(line);
    assert line[0] == '"';
    var fields := TrimAll(RawFields(line, false));
    PairIs(fields, x, y);
  }

  lemma {:induction false} QuotedFirstFields(x: string, y: string)
    requires '"' !in x && '"' !in y && ',' !in y
    ensures RawFields(['"'] + x + ['"', ','] + y, false) == [x, y]
  {
    var line := ['"'] + x + ['"', ','] + y;
    var tail := ['"', ','] + y;
    assert line[1..] == x + tail;
    RawFieldsPlain(x, tail, true);
    assert tail[1..] == [','] + y && ([','] + y)[1..] == y;
    RawFieldsPlain(y, [], false);
    assert y + [] == y;
    assert RawFields(y, false) == [y];
    var r := RawFields(tail, true);
    assert r == [""] + [y];
    assert x + r[0] == x && r[1..] == [y];
    assert [x + r[0]] + r[1..] == [x, y];
  }

  // ---------------------------------------------------------------------
  // The table

  /**
   * What one resource line adds: nothing for a blank or `#` line, else the
   * pair of fields 0 and 1 when there are at least two and both are
   * non-empty; further fields are ignored.
   */
  function LineEntry(raw: string): Option<(string, string)>
  {
    var line := Trim(raw);
    if line == [] || StartsWith(line, "#") then None else FieldsEntry(CsvFields(line))
  }

  /** Fields 0 and 1, trimmed, when there are two and both are non-empty. */
  function FieldsEntry(parts: seq<string>): Option<(string, string)>
  {
    if |parts| >= 2 then
      var hostname := Trim(parts[0]);
      var description := Trim(parts[1]);
      if hostname != [] && description != [] then Some((hostname, description)) else None
    else None
  }

  /**
   * Blank and `#` lines add nothing; an entry is fields 0 and 1 of the
   * line as tokenized (the second trim changes nothing), both non-empty,
   * trimmed and free of quote chars.
   */
  lemma {:induction false} LineEntryShape(raw: string)
    ensures Trim(raw) == [] || Trim(raw)[0] == '#' ==> LineEntry(raw).None?
    ensures LineEntry(raw).Some? ==> var fields := CsvFields(Trim(raw));
      |fields| >= 2 && LineEntry(raw).value == (fields[0], fields[1])
    ensures LineEntry(raw).Some? ==> var (key, value) := LineEntry(raw).value;
      key != [] && value != [] && Trim(key) == key && Trim(value) == value &&
      '"' !in key && '"' !in value
  {
    var line := Trim(raw);
    if line != [] && line[0] == '#' {
      assert line[..1] == "#";
    }
    if LineEntry(raw).Some? {
      var fields := CsvFields(line);
      CsvFieldsClean(line);
      assert |fields| >= 2;
      assert Trim(fields[0]) == fields[0] && Trim(fields[1]) == fields[1];
      assert LineEntry(raw).value == (fields[0], fields[1]);
    }
  }

  /**
   * Conversely, every line that is not blank, not a comment and tokenizes
   * into at least two fields whose first two are non-empty adds exactly
   * those two fields; padding around the line or its fields and any
   * further fields make no difference.
   */
  lemma {:induction false} LineEntryOfFields(raw: string)
    ensures var line := Trim(raw); var fields := CsvFields(line);
      line != [] && !StartsWith(line, "#") && |fields| >= 2 && fields[0] != [] && fields[1] != [] ==>
        LineEntry(raw) == Some((fields[0], fields[1]))
  {
    CsvFieldsClean(Trim(raw));
  }

  /** Chars other than quotes (and, outside quotes, commas) extend the first field. */
  lemma {:induction false} RawFieldsPlain(a: string, rest: string, inQuotes: bool)
    requires '"' !in a && (inQuotes || ',' !in a)
    ensures var r := RawFields(rest, inQuotes); RawFields(a + rest, inQuotes) == [a + r[0]] + r[1..]
  {
    if a == [] {
      var r := RawFields(rest, inQuotes);
      assert a + rest == rest && a + r[0] == r[0];
      assert r == [r[0]] + r[1..];
    } else {
      assert (a + rest)[0] == a[0] && (a + rest)[1..] == a[1..] + rest;
      assert forall c :: c in a[1..] ==> c in a;
      RawFieldsPlain(a[1..], rest, inQuotes);
      var r := RawFields(rest, inQuotes);
      assert [a[0]] + (a[1..] + r[0]) == a + r[0];
    }
  }

  /** What a line of two non-empty trimmed fields, not a comment, adds. */
  lemma {:induction false} TwoFieldLine(line: string, key: string, value: string)
    requires key != [] && value != [] && Trim(key) == key && Trim(value) == value
    requires line != [] && line[0] > ' ' && line[0] != '#' && line[|line| - 1] > ' '
    requires RawFields(line, false) == [key, value]
    ensures LineEntry(line) == Some((key, value))
  {
    TrimKeeps(line);
    assert !StartsWith(line, "#") by {
      if |line| >= 1 { assert line[..1][0] == line[0]; }
    }
    assert !IsBlank(line);
    var raw := RawFields(line, false);
    var fields := TrimAll(raw);
    assert CsvFields(line) == fields;
    assert raw[0] == key && raw[1] == value;
    assert |fields| == 2 && fields[0] == key && fields[1] == value;
    PairIs(fields, key, value);
  }

  lemma {:induction false} PairIs<T>(s: seq<T>, a: T, b: T)
    requires |s| == 2 && s[0] == a && s[1] == b
    ensures s == [a, b]
  {
  }

  /** `key,value` with neither field quoted. */
  lemma {:induction false} PlainLine(key: string, value: string)
    requires key != [] && value != [] && Trim(key) == key && Trim(value) == value
    requires '"' !in key && ',' !in key && '"' !in value && ',' !in value && key[0] != '#'
    ensures LineEntry(key + [','] + value) == Some((key, value))
  {
    var line := key + [','] + value;
    PlainFields(key, value);
    assert line[0] == key[0] && line[|line| - 1] == value[|value| - 1];
    TwoFieldLine(line, key, value);
  }

  lemma {:induction false} PlainFields(key: string, value: string)
    requires '"' !in key && ',' !in key && '"' !in value && ',' !in value
    ensures RawFields(key + [','] + value, false) == [key, value]
  {
    var tail := [','] + value;
    assert key + [','] + value == key + tail;
    RawFieldsPlain(key, tail, false);
    assert tail[1..] == value;
    RawFieldsPlain(value, [], false);
    assert value + [] == value;
    assert RawFields(value, false) == [value];
    var r := RawFields(tail, false);
    assert r == [""] + [value];
    assert key + r[0] == key && r[1..] == [value];
    assert [key + r[0]] + r[1..] == [key, value];
  }

  /** `key,"value"`: a quoted second field loses its quotes. */
  lemma {:induction false} QuotedValueLine(key: string, value: string)
    requires key != [] && value != [] && Trim(key) == key && Trim(value) == value
    requires '"' !in key && ',' !in key && '"' !in value && key[0] != '#'
    ensures LineEntry(key + [','] + ['"'] + value + ['"']) == Some((key, value))
  {
    var line := key + [','] + ['"'] + value + ['"'];
    QuotedFields(key, value);
    assert line[0] == key[0];
    TwoFieldLine(line, key, value);
  }

  lemma {:induction false} QuotedFields(key: string, value: string)
    requires '"' !in key && ',' !in key && '"' !in value
    ensures RawFields(key + [','] + ['"'] + value + ['"'], false) == [key, value]
  {
    var tail := [','] + ['"'] + value + ['"'];
    assert key + [','] + ['"'] + value + ['"'] == key + tail;
    RawFieldsPlain(key, tail, false);
    assert tail[1..] == ['"'] + (value + ['"']);
    assert (['"'] + (value + ['"']))[1..] == value + ['"'];
    RawFieldsPlain(value, ['"'], true);
    assert ['"'][1..] == [];
    assert RawFields(['"'], true) == [""];
    assert value + "" == value;
    assert RawFields(value + ['"'], true) == [value];
    var r := RawFields(tail, false);
    assert r == [""] + [value];
    assert key + r[0] == key && r[1..] == [value];
    assert [key + r[0]] + r[1..] == [key, value];
  }

  /** The conditions under which a name is written into a mapping line verbatim. */
  predicate PlainName(s: string)
  {
    s != [] && Trim(s) == s && '"' !in s && ',' !in s
  }

  /**
   * A resource with a line `hostA,"sourceA"` (label quoted) followed by a
   * line `hostB,sourceB` maps each host to its label, and any other host to
   * the default.
   */
  lemma {:induction false} TableScenario(hostA: string, sourceA: string, hostB: string, sourceB: string, other: string)
    requires PlainName(hostA) && PlainName(sourceA) && PlainName(hostB) && PlainName(sourceB)
    requires hostA[0] != '#' && hostB[0] != '#' && hostA != hostB
    requires other != hostA && other != hostB
    ensures var table := TableOf([hostA + [','] + ['"'] + sourceA + ['"'], hostB + [','] + sourceB]);
      Resolve(table, Some(hostA)) == sourceA &&
      Resolve(table, Some(hostB)) == sourceB &&
      Resolve(table, Some(other)) == DefaultPipelineSource
  {
    ScenarioTable(hostA, sourceA, hostB, sourceB);
    ResolveTwo(hostA, sourceA, hostB, sourceB, other);
  }

  /** Resolving against a table of two distinct hosts with non-blank labels. */
  lemma {:induction false} ResolveTwo(hostA: string, sourceA: string, hostB: string, sourceB: string, other: string)
    requires hostA != hostB && !IsBlank(sourceA) && !IsBlank(sourceB)
    requires other != hostA && other != hostB
    ensures var table := map[hostA := sourceA][hostB := sourceB];
      Resolve(table, Some(hostA)) == sourceA &&
      Resolve(table, Some(hostB)) == sourceB &&
      Resolve(table, Some(other)) == DefaultPipelineSource
  {
    var table := map[hostA := sourceA][hostB := sourceB];
    assert hostA in table && table[hostA] == sourceA;
    assert hostB in table && table[hostB] == sourceB;
    assert other !in table;
  }

  /** The table the scenario's two lines build. */
  lemma {:induction false} ScenarioTable(hostA: string, sourceA: string, hostB: string, sourceB: string)
    requires PlainName(hostA) && PlainName(sourceA) && PlainName(hostB) && PlainName(sourceB)
    requires hostA[0] != '#' && hostB[0] != '#'
    ensures TableOf([hostA + [','] + ['"'] + sourceA + ['"'], hostB + [','] + sourceB])
      == map[hostA := sourceA][hostB := sourceB]
  {
    QuotedValueLine(hostA, sourceA);
    PlainLine(hostB, sourceB);
    TwoLines(hostA + [','] + ['"'] + sourceA + ['"'], hostB + [','] + sourceB, hostA, sourceA, hostB, sourceB);
  }

  /** Two lines that each define an entry build the table of both, the later put last. */
  lemma {:induction false} TwoLines(first: string, second: string, keyA: string, valueA: string, keyB: string, valueB: string)
    requires LineEntry(first) == Some((keyA, valueA)) && LineEntry(second) == Some((keyB, valueB))
    ensures TableOf([first, second]) == map[keyA := valueA][keyB := valueB]
  {
    var entries := EntriesOf([first, second]);
    PairIs(entries, Some((keyA, valueA)), Some((keyB, valueB)));
    FoldTwo(keyA, valueA, keyB, valueB);
  }

  lemma {:induction false} FoldTwo(keyA: string, valueA: string, keyB: string, valueB: string)
    ensures Fold([Some((keyA, valueA)), Some((keyB, valueB))]) == map[keyA := valueA][keyB := valueB]
  {
    var entries := [Some((keyA, valueA)), Some((keyB, valueB))];
    assert entries[..1][..0] == [];
    assert Fold(entries[..1]) == map[keyA := valueA];
  }

  predicate HasKey(entry: Option<(string, string)>, key: string)
  {
    entry.Some? && entry.value.0 == key
  }

  predicate DefinesKey(raw: string, key: string)
  {
    HasKey(LineEntry(raw), key)
  }

  /** The map that putting the entries in order builds; a later key overwrites. */
  function Fold(entries: seq<Option<(string, string)>>): map<string, string>
  {
    if entries == [] then map[]
    else AddEntry(Fold(entries[..|entries| - 1]), entries[|entries| - 1])
  }

  /** The put of one entry; a line without an entry leaves the map alone. */
  function AddEntry(mapping: map<string, string>, entry: Option<(string, string)>): map<string, string>
  {
    match entry
    case None => mapping
    case Some((key, value)) => mapping[key := value]
  }

  function EntriesOf(lines: seq<string>): (entries: seq<Option<(string, string)>>)
    ensures |entries| == |lines|
    ensures forall i :: 0 <= i < |lines| ==> entries[i] == LineEntry(lines[i])
  {
    seq(|lines|, i requires 0 <= i < |lines| => LineEntry(lines[i]))
  }

  /** The table that reading `lines` in order builds. */
  function TableOf(lines: seq<string>): map<string, string>
  {
    Fold(EntriesOf(lines))
  }

  /** One more line acts on the table through its entry only. */
  lemma {:induction false} TableOfSnoc(lines: seq<string>, i: nat)
    requires i < |lines|
    ensures TableOf(lines[..i + 1]) == AddEntry(TableOf(lines[..i]), LineEntry(lines[i]))
  {
    var es := EntriesOf(lines[..i + 1]);
    assert es[..i] == EntriesOf(lines[..i]);
    assert es[i] == LineEntry(lines[i]);
  }

  lemma {:induction false} FoldLastWins(entries: seq<Option<(string, string)>>, key: string)
    ensures key in Fold(entries) <==> exists i :: 0 <= i < |entries| && HasKey(entries[i], key)
    ensures forall i :: (0 <= i < |entries| && HasKey(entries[i], key) &&
                         (forall j :: i < j < |entries| ==> !HasKey(entries[j], key))) ==>
                        key in Fold(entries) && Fold(entries)[key] == entries[i].value.1
  {
    if entries != [] {
      var init := entries[..|entries| - 1];
      var last := entries[|entries| - 1];
      FoldLastWins(init, key);
      assert forall i :: 0 <= i < |init| ==> init[i] == entries[i];
      if !HasKey(last, key) && key in Fold(entries) {
        var i :| 0 <= i < |init| && HasKey(init[i], key);
        assert HasKey(entries[i], key);
      }
    }
  }

  /** A key is in the table exactly when some line defines it. */
  lemma {:induction false} TableKeys(lines: seq<string>, key: string)
    ensures key in TableOf(lines) <==> exists i :: 0 <= i < |lines| && DefinesKey(lines[i], key)
  {
    var entries := EntriesOf(lines);
    FoldLastWins(entries, key);
    if key in TableOf(lines) {
      var i :| 0 <= i < |entries| && HasKey(entries[i], key);
      assert DefinesKey(lines[i], key);
    }
    if exists i :: 0 <= i < |lines| && DefinesKey(lines[i], key) {
      var i :| 0 <= i < |lines| && DefinesKey(lines[i], key);
      assert HasKey(entries[i], key);
    }
  }

  /** A key's value is the one given by the last line that defines it. */
  lemma {:induction false} TableLastWins(lines: seq<string>, key: string, i: nat)
    requires i < |lines| && DefinesKey(lines[i], key)
    requires forall j :: i < j < |lines| ==> !DefinesKey(lines[j], key)
    ensures key in TableOf(lines) && TableOf(lines)[key] == LineEntry(lines[i]).value.1
  {
    var entries := EntriesOf(lines);
    FoldLastWins(entries, key);
    assert HasKey(entries[i], key);
    forall j | i < j < |entries|
      ensures !HasKey(entries[j], key)
    {
      assert entries[j] == LineEntry(lines[j]);
    }
  }

  /** Every value of the table is non-blank. */
  lemma {:induction false} TableValuesNonBlank(lines: seq<string>)
    ensures forall key :: key in TableOf(lines) ==> !IsBlank(TableOf(lines)[key])
  {
    forall key | key in TableOf(lines)
      ensures !IsBlank(TableOf(lines)[key])
    {
      TableKeys(lines, key);
      var i :| 0 <= i < |lines| && DefinesKey(lines[i], key);
      var last := LastDefinition(lines, key, i);
      TableLastWins(lines, key, last);
      LineEntryShape(lines[last]);
    }
  }

  /** The index of the last line that defines `key`, at or after line i. */
  lemma {:induction false} LastDefinition(lines: seq<string>, key: string, i: nat) returns (last: nat)
    requires i < |lines| && DefinesKey(lines[i], key)
    ensures i <= last < |lines| && DefinesKey(lines[last], key)
    ensures forall j :: last < j < |lines| ==> !DefinesKey(lines[j], key)
    decreases |lines| - i
  {
    last := i;
    if exists j :: i < j < |lines| && DefinesKey(lines[j], key) {
      var j :| i < j < |lines| && DefinesKey(lines[j], key);
      last := LastDefinition(lines, key, j);
    }
  }

  /** The static resource: absent, or its lines with the index at which reading fails, if it does. */
  datatype Resource = Missing | Present(lines: seq<string>, readFailsAt: Option<nat>)

  /**
   * The lines read before the resource ends or a read fails: none without
   * the resource, all of them when no read fails, and exactly the first k
   * when the read of line k fails.
   */
  function LinesRead(resource: Resource): (r: seq<string>)
    ensures resource.Missing? ==> r == []
    ensures resource.Present? ==> r <= resource.lines
    ensures resource.Present? && resource.readFailsAt.None? ==> r == resource.lines
    ensures resource.Present? && resource.readFailsAt.Some? && resource.readFailsAt.value < |resource.lines| ==>
      r == resource.lines[..resource.readFailsAt.value]
  {
    match resource
    case Missing => []
    case Present(lines, None) => lines
    case Present(lines, Some(k)) => if k < |lines| then lines[..k] else lines
  }

  function BuildTable(resource: Resource): map<string, string>
  {
    TableOf(LinesRead(resource))
  }

  /** The table after initializeMapping: the old one if built, a fresh build otherwise. */
  function TableAfterInit(initialized: bool, mapping: map<string, string>, resource: Resource): map<string, string>
  {
    if initialized then mapping else BuildTable(resource)
  }

  // ---------------------------------------------------------------------
  // Host name and lookup

  /** InetAddress.getLocalHost().getHostName() (None: it throws) and the HOSTNAME variable. */
  datatype Host = Host(localHostName: Option<string>, hostnameVariable: Option<string>)

  /** getCurrentHostname; None stands for the exception it throws. */
  function CurrentHostname(host: Host): (name: Option<string>)
    ensures host.localHostName.Some? ==> name == host.localHostName
    ensures host.localHostName.None? ==>
      (name.Some? <==> host.hostnameVariable.Some? && !IsBlank(host.hostnameVariable.value))
    ensures host.localHostName.None? && name.Some? ==> name == host.hostnameVariable
  {
    if host.localHostName.Some? then host.localHostName
    else if host.hostnameVariable.Some? && !IsBlank(host.hostnameVariable.value) then host.hostnameVariable
    else None
  }

  /** The lookup step of getPipelineSourceForCurrentHost. */
  function Resolve(mapping: map<string, string>, hostname: Option<string>): (source: string)
    ensures source != []
    ensures hostname.Some? && hostname.value in mapping && !IsBlank(mapping[hostname.value]) ==>
      source == mapping[hostname.value]
    ensures !(hostname.Some? && hostname.value in mapping && !IsBlank(mapping[hostname.value])) ==>
      source == DefaultPipelineSource
  {
    match hostname
    case None => DefaultPipelineSource
    case Some(h) =>
      if h in mapping && !IsBlank(mapping[h]) then mapping[h] else DefaultPipelineSource
  }

  /** A host the table knows always gets its own label, never the default. */
  lemma {:induction false} LookupFindsTableEntry(resource: Resource, hostname: string)
    requires hostname in BuildTable(resource)
    ensures Resolve(BuildTable(resource), Some(hostname)) == BuildTable(resource)[hostname]
  {
    TableValuesNonBlank(LinesRead(resource));
  }

  /** A missing resource leaves every host on the default label. */
  lemma {:induction false} MissingResourceMeansDefault(hostname: Option<string>)
    ensures Resolve(BuildTable(Missing), hostname) == DefaultPipelineSource
  {
  }

  // ---------------------------------------------------------------------
  // The cache

  /**
   * The body of initializeMapping's read loop for one line: blank and `#`
   * lines are skipped, otherwise the line is tokenized and fields 0 and 1,
   * trimmed and both non-empty, are put into the table.
   */
  method ReadLine(mapping: map<string, string>, raw: string) returns (result: map<string, string>)
    ensures result == AddEntry(mapping, LineEntry(raw))
  {
    result := mapping;
    var line := Trim(raw);
    if line == [] || StartsWith(line, "#") {
      return;
    }
    var parts := ParseCsvLine(line);
    result := PutFields(mapping, parts);
  }

  /** Puts fields 0 and 1 of a tokenized line, when both are there and non-empty. */
  method PutFields(mapping: map<string, string>, parts: seq<string>) returns (result: map<string, string>)
    ensures result == AddEntry(mapping, FieldsEntry(parts))
  {
    result := mapping;
    if |parts| >= 2 {
      var hostname := Trim(parts[0]);
      var description := Trim(parts[1]);
      if hostname != [] && description != [] {
        result := mapping[hostname := description];
      }
    }
  }

  class HostnameMappingService {
    var initialized: bool
    /** hostnameMapping; the empty map stands for null before initialization. */
    var hostnameMapping: map<string, string>

    ghost predicate Valid()
      reads this
    {
      !initialized ==> hostnameMapping == map[]
    }

    constructor ()
      ensures Valid() && !initialized
    {
      initialized := false;
      hostnameMapping := map[];
    }

    /** getPipelineSourceForCurrentHost: builds the table on first use, then looks up. */
    method GetPipelineSourceForCurrentHost(resource: Resource, host: Host) returns (source: string)
      requires Valid()
      modifies this
      ensures Valid() && initialized
      ensures hostnameMapping == TableAfterInit(old(initialized), old(hostnameMapping), resource)
      ensures source == Resolve(hostnameMapping, CurrentHostname(host))
      ensures source != []
    {
      if !initialized {
        InitializeMapping(resource);
      }
      var hostname := CurrentHostname(host);
      source := Resolve(hostnameMapping, hostname);
    }

    /** initializeMapping: a no-op once initialized, otherwise reads the resource line by line. */
    method InitializeMapping(resource: Resource)
      requires Valid()
      modifies this
      ensures Valid() && initialized
      ensures hostnameMapping == TableAfterInit(old(initialized), old(hostnameMapping), resource)
    {
      if initialized {
        return;
      }
      var mapping: map<string, string> := map[];
      if resource.Missing? {
        hostnameMapping := mapping;
        initialized := true;
        return;
      }
      var lines := resource.lines;
      var i := 0;
      while i < |lines|
        invariant 0 <= i <= |lines|
        invariant resource.readFailsAt.Some? ==> i <= resource.readFailsAt.value
        invariant mapping == TableOf(lines[..i])
      {
        if resource.readFailsAt == Some(i) {
          // readLine throws: the exception is caught and what was read is kept
          break;
        }
        TableOfSnoc(lines, i);
        mapping := ReadLine(mapping, lines[i]);
        i := i + 1;
      }
      assert LinesRead(resource) == lines[..i];
      hostnameMapping := mapping;
      initialized := true;
    }

    /** reloadMapping: forget the table and build it again from the resource. */
    method ReloadMapping(resource: Resource)
      requires Valid()
      modifies this
      ensures Valid() && initialized
      ensures hostnameMapping == BuildTable(resource)
    {
      initialized := false;
      hostnameMapping := map[];
      InitializeMapping(resource);
    }
  }
}
