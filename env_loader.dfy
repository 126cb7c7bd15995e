/** `.env` handling (src/env_loader.rs): one `NAME[=value]` entry is parsed into a name and
    an optional value, and an env file is read line by line into variables. The file itself
    is given as the sequence of its lines. */
module EnvLoader {
  import opened Wrappers
  import opened Strings
  import opened Spec

  /** `EnvDescriptor`: a name and, after `=`, its value. */
  datatype EnvDescriptor = EnvDescriptor(name: string, default: Option<string>)

  /** A value wrapped in a pair of the same quote character (which may be one character
      serving as both). */
  predicate IsQuoted(value: string) {
    (StartsWith(value, '"') && EndsWith(value, '"')) || (StartsWith(value, '\'') && EndsWith(value, '\''))
  }

  /** A name `parse_env_string` can give back: non-empty, trimmed, free of `=`. */
  predicate ValidName(name: string) {
    |name| > 0 && IsTrimmed(name) && '=' !in name
  }

  /** The value after `=`, already trimmed: a quoted value loses its quotes and may contain
      `=`, an unquoted one may not. */
  function ParseValue(value: string): (r: Result<string>)
    ensures r.Ok? && !IsQuoted(value) ==> r.value == value && '=' !in value
  {
    if IsQuoted(value) then
      if |value| >= 2 then Ok(value[1..|value| - 1]) else Err("Invalid quoted value")
    else if '=' in value then Err("Unquoted '=' found in value. Use quotes.")
    else Ok(value)
  }

  /** The two sides of the first `=`, each trimmed; the name must not be empty. */
  function ParseAssignment(n: string, v: string): (r: Result<EnvDescriptor>)
    requires '=' !in n
    ensures r.Ok? ==> ValidName(r.value.name) && r.value.default.Some?
  {
    var name := Trim(n);
    TrimKeepsAbsent(n, '=');
    if |name| == 0 then Err("Empty name")
    else
      var value :- ParseValue(Trim(v));
      Ok(EnvDescriptor(name, Some(value)))
  }

  /** `parse_env_string`: the trimmed input is split on its first `=`. Without `=` the whole
      trimmed input is the name and there is no value. */
  function ParseEnvString(input: string): (r: Result<EnvDescriptor>)
    ensures r.Ok? ==> ValidName(r.value.name)
    ensures r.Ok? && r.value.default.None? ==> r.value.name == Trim(input)
    ensures r.Ok? && r.value.default.Some? ==> '=' in Trim(input)
  {
    var t := Trim(input);
    if |t| == 0 then Err("Empty string")
    else match SplitOnce(t, '=')
      case None => Ok(EnvDescriptor(t, None))
      case Some((n, v)) => ParseAssignment(n, v)
  }

  /** `parse_env_variable`: an entry that must carry a value. */
  function ParseEnvVariable(input: string): (r: Result<EnvVariable>)
    ensures r.Ok? ==> ValidName(r.value.name)
  {
    var desc :- ParseEnvString(input);
    match desc.default
    case None => Err("No value for env variable: " + input)
    case Some(v) => Ok(EnvVariable(desc.name, v))
  }

  /** A line of an env file that is ignored: blank, or a `#` comment. */
  predicate IsSkipped(line: string) {
    var t := Trim(line);
    |t| == 0 || StartsWith(t, '#')
  }

  /** The error a bad entry on line `number` (counted from 1) is reported with. */
  function LineContext(number: nat, trimmed: string): string {
    "Failed to parse env variable on line " + NatToString(number) + ": " + trimmed
  }

  /** The lines of `load_env_file`'s loop: skipped lines are ignored, every other trimmed
      line must parse as a variable, and the first that does not fails the load. */
  function LoadEnvLines(lines: seq<string>): Result<seq<EnvVariable>>
    decreases |lines|
  {
    if |lines| == 0 then Ok([])
    else
      var prev :- LoadEnvLines(lines[..|lines| - 1]);
      var line := lines[|lines| - 1];
      if IsSkipped(line) then Ok(prev)
      else
        var v :- WithContext(ParseEnvVariable(Trim(line)), LineContext(|lines|, Trim(line)));
        Ok(prev + [v])
  }

  /** `load_env_file`, over the lines of the file. */
  method LoadEnvFile(lines: seq<string>) returns (r: Result<seq<EnvVariable>>)
    ensures r == LoadEnvLines(lines)
  {
    var vars: seq<EnvVariable> := [];
    var i := 0;
    while i < |lines|
      invariant 0 <= i <= |lines|
      invariant LoadEnvLines(lines[..i]) == Ok(vars)
    {
      LoadEnvLinesSnoc(lines, i);
      var trimmed := Trim(lines[i]);
      if |trimmed| == 0 || StartsWith(trimmed, '#') {
        i := i + 1;
        continue;
      }
      var parsed := ParseEnvVariable(trimmed);
      if parsed.Err? {
        LoadEnvLinesStops(lines, i + 1);
        return Err(LineContext(i + 1, trimmed) + ": " + parsed.msg);
      }
      vars := vars + [parsed.value];
      i := i + 1;
    }
    assert lines[..i] == lines;
    return Ok(vars);
  }

  // ----- properties -----

  /** Trimming keeps out a character that was not there. */
  lemma TrimKeepsAbsent(s: string, c: char)
    requires c !in s
    ensures c !in Trim(s)
  {
    var i := LeadingWhitespace(s);
    var t := s[i..];
    assert Trim(s) == t[..TrailingWhitespace(t)];
    forall k | 0 <= k < |Trim(s)|
      ensures Trim(s)[k] != c
    {
      assert Trim(s)[k] == s[i + k];
    }
  }

  /** Trimming twice is trimming once. */
  lemma TrimIdempotent(s: string)
    ensures Trim(Trim(s)) == Trim(s)
  {
  }

  /** The input is trimmed before anything else: surrounding whitespace never matters. */
  lemma ParseTrimmed(input: string)
    ensures ParseEnvString(Trim(input)) == ParseEnvString(input)
  {
    TrimIdempotent(input);
  }

  /** Blank input, and only blank input, is the "Empty string" error. */
  lemma EmptyInput(input: string)
    ensures ParseEnvString(input) == Err("Empty string") <==> AllWhitespace(input)
  {
    var t := Trim(input);
    if |t| > 0 {
      match SplitOnce(t, '=') {
        case None =>
        case Some((n, v)) =>
          var r := ParseAssignment(n, v);
          assert r.Err? ==> r.msg in {"Empty name", "Invalid quoted value", "Unquoted '=' found in value. Use quotes."};
      }
    }
  }

  /** An `=` with nothing but whitespace before it is the "Empty name" error. */
  lemma EmptyName(value: string)
    requires IsTrimmed(value)
    ensures ParseEnvString("=" + value) == Err("Empty name")
  {
    var s := "=" + value;
    assert IsTrimmed(s);
    assert IndexOf(s, '=') == Some(0);
    assert Trim([]) == [];
  }

  /** An entry without `=` is a name alone. */
  lemma NameOnly(input: string)
    requires '=' !in input && !AllWhitespace(input)
    ensures ParseEnvString(input) == Ok(EnvDescriptor(Trim(input), None))
  {
    TrimKeepsAbsent(input, '=');
  }

  /** `name=value` with a valid name and a trimmed value is trimmed and splits at the `=`
      after the name. */
  lemma SplitAssignment(name: string, value: string)
    requires ValidName(name) && IsTrimmed(value)
    ensures IsTrimmed(name + "=" + value)
    ensures SplitOnce(name + "=" + value, '=') == Some((name, value))
  {
    var s := name + "=" + value;
    assert s[0] == name[0];
    assert s[|s| - 1] == if |value| == 0 then '=' else value[|value| - 1];
    SplitFirst(name, '=', value);
  }

  /** Once trimmed and split, the input is its two sides. */
  lemma ParseViaSplit(input: string, n: string, v: string)
    requires '=' !in n && Trim(input) == n + "=" + v
    ensures ParseEnvString(input) == ParseAssignment(n, v)
  {
    SplitFirst(n, '=', v);
  }

  /** Each side counts only trimmed. */
  lemma AssignmentTrimmed(n: string, v: string, n': string, v': string)
    requires '=' !in n && '=' !in n' && Trim(n) == Trim(n') && Trim(v) == Trim(v')
    ensures ParseAssignment(n, v) == ParseAssignment(n', v')
  {
  }

  /** Trimming a padded entry leaves the padding around `=`. */
  lemma TrimPaddedEntry(name: string, value: string, w1: string, w2: string, w3: string, w4: string)
    requires |name| > 0 && IsTrimmed(name) && IsTrimmed(value) && |value| > 0
    requires AllWhitespace(w1) && AllWhitespace(w4)
    ensures Trim(w1 + name + w2 + "=" + w3 + value + w4) == (name + w2) + "=" + (w3 + value)
  {
    var core := name + w2 + "=" + w3 + value;
    assert w1 + name + w2 + "=" + w3 + value + w4 == w1 + core + w4;
    assert core[0] == name[0] && core[|core| - 1] == value[|value| - 1];
    TrimPadded(w1, core, w4);
    assert core == (name + w2) + "=" + (w3 + value);
  }

  /** Whitespace brings no `=`. */
  lemma NoEqualsPadded(name: string, w: string)
    requires '=' !in name && AllWhitespace(w)
    ensures '=' !in name + w
  {
    forall k | 0 <= k < |name + w|
      ensures (name + w)[k] != '='
    {
      if k >= |name| {
        assert (name + w)[k] == w[k - |name|];
      }
    }
  }

  /** Whitespace around the name and around the value is ignored. */
  lemma PaddingIgnored(name: string, value: string, w1: string, w2: string, w3: string, w4: string)
    requires ValidName(name) && IsTrimmed(value) && |value| > 0
    requires AllWhitespace(w1) && AllWhitespace(w2) && AllWhitespace(w3) && AllWhitespace(w4)
    ensures ParseEnvString(w1 + name + w2 + "=" + w3 + value + w4) == ParseEnvString(name + "=" + value)
  {
    var input := w1 + name + w2 + "=" + w3 + value + w4;
    TrimPaddedEntry(name, value, w1, w2, w3, w4);
    NoEqualsPadded(name, w2);
    ParseViaSplit(input, name + w2, w3 + value);
    TrimSides(name, value, w2, w3);
    SplitAssignment(name, value);
    ParseViaSplit(name + "=" + value, name, value);
    AssignmentTrimmed(name + w2, w3 + value, name, value);
  }

  /** The padding inside the entry is trimmed off each side. */
  lemma TrimSides(name: string, value: string, w2: string, w3: string)
    requires |name| > 0 && IsTrimmed(name) && IsTrimmed(value) && |value| > 0
    requires AllWhitespace(w2) && AllWhitespace(w3)
    ensures Trim(name + w2) == name && Trim(w3 + value) == value
  {
    assert [] + name + w2 == name + w2;
    TrimPadded([], name, w2);
    assert w3 + value + [] == w3 + value;
    TrimPadded(w3, value, []);
  }

  /** An unquoted value is kept as it is, unless it contains `=`: the split is on the
      first `=` only, and a second one needs quotes. */
  lemma UnquotedValue(name: string, value: string)
    requires ValidName(name) && IsTrimmed(value) && !IsQuoted(value)
    ensures ParseEnvString(name + "=" + value) ==
      if '=' in value then Err("Unquoted '=' found in value. Use quotes.")
      else Ok(EnvDescriptor(name, Some(value)))
  {
    ParseTrimmedAssignment(name, value);
  }

  /** A quoted value loses its quotes and keeps whatever is between them, `=` included. */
  lemma QuotedValue(name: string, q: char, inner: string)
    requires ValidName(name) && (q == '"' || q == '\'')
    ensures ParseEnvString(name + "=" + ([q] + inner + [q])) == Ok(EnvDescriptor(name, Some(inner)))
  {
    var value := [q] + inner + [q];
    QuotedInner(q, inner);
    ParseTrimmedAssignment(name, value);
  }

  /** A quoted value is trimmed, and its quotes come off. */
  lemma QuotedInner(q: char, inner: string)
    requires q == '"' || q == '\''
    ensures IsTrimmed([q] + inner + [q]) && ParseValue([q] + inner + [q]) == Ok(inner)
  {
    var value := [q] + inner + [q];
    assert value[0] == q && value[|value| - 1] == q;
    assert value[1..|value| - 1] == inner;
  }

  /** `name=value` with both sides already trimmed parses the value on its own. */
  lemma ParseTrimmedAssignment(name: string, value: string)
    requires ValidName(name) && IsTrimmed(value)
    ensures ParseEnvString(name + "=" + value) ==
      match ParseValue(value)
      case Ok(v) => Ok(EnvDescriptor(name, Some(v)))
      case Err(m) => Err(m)
  {
    SplitAssignment(name, value);
    ParseViaSplit(name + "=" + value, name, value);
  }

  /** A lone quote character is not a quoted value. */
  lemma LoneQuote(name: string, q: char)
    requires ValidName(name) && (q == '"' || q == '\'')
    ensures ParseEnvString(name + "=" + [q]) == Err("Invalid quoted value")
  {
    ParseTrimmedAssignment(name, [q]);
  }

  /** How an entry is written back: the name, then `="value"` when it has one. */
  function FormatEnvString(d: EnvDescriptor): string {
    match d.default
    case None => d.name
    case Some(v) => d.name + "=" + ("\"" + v + "\"")
  }

  /** Parsing undoes formatting for every entry with a valid name. */
  lemma ParseFormat(d: EnvDescriptor)
    requires ValidName(d.name)
    ensures ParseEnvString(FormatEnvString(d)) == Ok(d)
  {
    match d.default
    case None =>
      NameOnly(d.name);
    case Some(v) =>
      assert "\"" + v + "\"" == ['"'] + v + ['"'];
      QuotedValue(d.name, '"', v);
  }

  /** An entry without a value is no variable: the error names the whole input. */
  lemma MissingValue(input: string)
    requires ParseEnvString(input).Ok? && ParseEnvString(input).value.default.None?
    ensures ParseEnvVariable(input) == Err("No value for env variable: " + input)
  {
  }

  /** A variable is the parsed name with the parsed value; a parse error is kept. */
  lemma VariableFromEntry(input: string)
    ensures ParseEnvString(input).Err? ==> ParseEnvVariable(input) == Err(ParseEnvString(input).msg)
    ensures ParseEnvVariable(input).Ok? <==> ParseEnvString(input).Ok? && ParseEnvString(input).value.default.Some?
    ensures ParseEnvVariable(input).Ok? ==>
      ParseEnvString(input).value == EnvDescriptor(ParseEnvVariable(input).value.name, Some(ParseEnvVariable(input).value.value))
  {
  }

  /** Every variable with a valid name survives being written and read back. */
  lemma ParseFormatVariable(v: EnvVariable)
    requires ValidName(v.name)
    ensures ParseEnvVariable(FormatEnvString(EnvDescriptor(v.name, Some(v.value)))) == Ok(v)
  {
    ParseFormat(EnvDescriptor(v.name, Some(v.value)));
  }

  /** The lines that become variables: trimmed, in file order. */
  function KeptLines(lines: seq<string>): (r: seq<string>)
    ensures |r| <= |lines|
  {
    if |lines| == 0 then []
    else
      var line := lines[|lines| - 1];
      if IsSkipped(line) then KeptLines(lines[..|lines| - 1])
      else KeptLines(lines[..|lines| - 1]) + [Trim(line)]
  }

  /** Once a prefix of the lines fails, the whole load fails with that error. */
  lemma {:induction false} LoadEnvLinesStops(lines: seq<string>, i: nat)
    requires i <= |lines| && LoadEnvLines(lines[..i]).Err?
    ensures LoadEnvLines(lines) == LoadEnvLines(lines[..i])
  {
    if i == |lines| {
      assert lines[..i] == lines;
    } else {
      var init := lines[..|lines| - 1];
      assert init[..i] == lines[..i];
      LoadEnvLinesStops(init, i);
    }
  }

  /** A successful load is the kept lines parsed one by one, in file order. */
  lemma {:induction false} LoadKeepsOrder(lines: seq<string>)
    requires LoadEnvLines(lines).Ok?
    ensures CollectAll(ParseEnvVariable, KeptLines(lines)) == LoadEnvLines(lines)
  {
    if |lines| > 0 {
      var init, last := lines[..|lines| - 1], lines[|lines| - 1];
      LoadEnvLinesLast(lines);
      LoadKeepsOrder(init);
      assert init + [last] == lines;
      if IsSkipped(last) {
        assert KeptLines(lines) == KeptLines(init);
        SkippedLine(init, last);
      } else {
        assert KeptLines(lines) == KeptLines(init) + [Trim(last)];
        CollectAllSnoc(ParseEnvVariable, KeptLines(init), Trim(last));
        ParsedLine(init, last);
      }
    }
  }

  /** One more line: skipped, or parsed and appended, or the error of that line. */
  lemma LoadEnvLinesSnoc(lines: seq<string>, i: nat)
    requires i < |lines| && LoadEnvLines(lines[..i]).Ok?
    ensures var prev := LoadEnvLines(lines[..i]).value;
      var t := Trim(lines[i]);
      LoadEnvLines(lines[..i + 1]) ==
        if IsSkipped(lines[i]) then Ok(prev)
        else match ParseEnvVariable(t)
          case Ok(v) => Ok(prev + [v])
          case Err(m) => Err(LineContext(i + 1, t) + ": " + m)
  {
    assert lines[..i + 1][..i] == lines[..i];
  }

  /** The load of all lines succeeds when the load before the last line does and the last
      line is skipped or parses. */
  lemma LoadEnvLinesLast(lines: seq<string>)
    requires |lines| > 0
    ensures var init, last := lines[..|lines| - 1], lines[|lines| - 1];
      LoadEnvLines(lines).Ok? <==> LoadEnvLines(init).Ok? && (IsSkipped(last) || ParseEnvVariable(Trim(last)).Ok?)
  {
  }

  /** A load succeeds when every kept line parses as a variable (and, by `LoadKeepsOrder`,
      only then). */
  lemma {:induction false} LoadOk(lines: seq<string>)
    requires forall k :: 0 <= k < |KeptLines(lines)| ==> ParseEnvVariable(KeptLines(lines)[k]).Ok?
    ensures LoadEnvLines(lines).Ok?
  {
    if |lines| > 0 {
      var init, last := lines[..|lines| - 1], lines[|lines| - 1];
      var kept, prev := KeptLines(lines), KeptLines(init);
      if IsSkipped(last) {
        assert kept == prev;
      } else {
        assert kept == prev + [Trim(last)];
        forall k | 0 <= k < |prev|
          ensures ParseEnvVariable(prev[k]).Ok?
        {
          assert kept[k] == prev[k];
        }
        assert kept[|prev|] == Trim(last);
      }
      LoadOk(init);
      LoadEnvLinesLast(lines);
    }
  }

  /** A blank or comment line adds nothing to a load that has succeeded so far. */
  lemma SkippedLine(pre: seq<string>, line: string)
    requires IsSkipped(line) && LoadEnvLines(pre).Ok?
    ensures LoadEnvLines(pre + [line]) == LoadEnvLines(pre)
  {
    assert (pre + [line])[..|pre|] == pre;
  }

  /** Any other line that parses is appended, after the variables of the earlier lines. */
  lemma ParsedLine(pre: seq<string>, line: string)
    requires !IsSkipped(line) && LoadEnvLines(pre).Ok? && ParseEnvVariable(Trim(line)).Ok?
    ensures LoadEnvLines(pre + [line]) == Ok(LoadEnvLines(pre).value + [ParseEnvVariable(Trim(line)).value])
  {
    assert (pre + [line])[..|pre|] == pre;
  }

  /** The first bad line fails the load, reported with its line number and text. */
  lemma FirstBadLine(lines: seq<string>, i: nat)
    requires i < |lines| && LoadEnvLines(lines[..i]).Ok?
    requires !IsSkipped(lines[i]) && ParseEnvVariable(Trim(lines[i])).Err?
    ensures LoadEnvLines(lines) ==
      Err(LineContext(i + 1, Trim(lines[i])) + ": " + ParseEnvVariable(Trim(lines[i])).msg)
  {
    LoadEnvLinesSnoc(lines, i);
    LoadEnvLinesStops(lines, i + 1);
  }

  // ----- the unit tests' examples -----

  lemma ExampleUnquoted()
    ensures ParseEnvString("FOO=bar") == Ok(EnvDescriptor("FOO", Some("bar")))
  {
    assert "FOO=bar" == "FOO" + "=" + "bar" by {}
    assert ValidName("FOO") && IsTrimmed("bar") by {}
    UnquotedValue("FOO", "bar");
  }

  lemma ExampleUnquotedEquals()
    ensures ParseEnvString("FOO=bar=bar").Err?
  {
    assert "FOO=bar=bar" == "FOO" + "=" + "bar=bar" by {}
    assert ValidName("FOO") && IsTrimmed("bar=bar") && "bar=bar"[3] == '=' by {}
    UnquotedValue("FOO", "bar=bar");
  }

  lemma ExampleDoubleQuoted()
    ensures ParseEnvString("FOO=\"bar\"") == Ok(EnvDescriptor("FOO", Some("bar")))
  {
    assert "FOO=\"bar\"" == "FOO" + "=" + (['"'] + "bar" + ['"']) by {}
    assert ValidName("FOO") by {}
    QuotedValue("FOO", '"', "bar");
  }

  lemma ExampleSingleQuoted()
    ensures ParseEnvString("FOO='bar'") == Ok(EnvDescriptor("FOO", Some("bar")))
  {
    assert "FOO='bar'" == "FOO" + "=" + (['\''] + "bar" + ['\'']) by {}
    assert ValidName("FOO") by {}
    QuotedValue("FOO", '\'', "bar");
  }

  lemma ExampleQuotedEquals()
    ensures ParseEnvString("FOO=\"bar=bar\"") == Ok(EnvDescriptor("FOO", Some("bar=bar")))
  {
    assert "FOO=\"bar=bar\"" == "FOO" + "=" + (['"'] + "bar=bar" + ['"']) by {}
    assert ValidName("FOO") by {}
    QuotedValue("FOO", '"', "bar=bar");
  }

  lemma ExampleNameOnly()
    ensures ParseEnvString("FOO") == Ok(EnvDescriptor("FOO", None))
  {
    assert IsTrimmed("FOO") && !IsWhitespace("FOO"[0]) by {}
    NameOnly("FOO");
  }

  lemma ExampleSpaced()
    ensures ParseEnvString("  FOO  =  bar  ") == Ok(EnvDescriptor("FOO", Some("bar")))
  {
    assert "  FOO  =  bar  " == "  " + "FOO" + "  " + "=" + "  " + "bar" + "  " by {}
    SpacedPieces();
  }

  /** The spaced example, piece by piece. */
  lemma SpacedPieces()
    ensures ParseEnvString("  " + "FOO" + "  " + "=" + "  " + "bar" + "  ") == Ok(EnvDescriptor("FOO", Some("bar")))
  {
    assert AllWhitespace("  ") by {}
    assert ValidName("FOO") && IsTrimmed("bar") && !IsQuoted("bar") && '=' !in "bar" by {}
    PaddingIgnored("FOO", "bar", "  ", "  ", "  ", "  ");
    UnquotedValue("FOO", "bar");
  }

  lemma ExampleEmpty()
    ensures ParseEnvString("").Err?
    ensures ParseEnvString("=").Err?
  {
    EmptyName("");
    assert "=" + "" == "=";
  }

  lemma ExampleLoadError()
    ensures LoadEnvLines(["FOO"]).Err?
  {
    var lines := ["FOO"];
    ExampleNameOnly();
    assert IsTrimmed("FOO") by {}
    assert lines[..0] == [];
    LoadEnvLinesSnoc(lines, 0);
    assert lines[..1] == lines;
  }
}
