/**
 * The `.env` loader at the top of config.php: each line of the file is
 * trimmed, blank lines, `#` comments and lines without `=` are skipped, the
 * rest is split at the first `=`, one pair of matching outer quotes is
 * stripped from the value, and the entry is written into the environment
 * only if its key is non-empty and not yet defined.
 *
 * The process environment (`getenv`/`putenv`) is an explicit map.
 */
module DotEnv {
  import opened Wrappers
  import opened Text

  type Environment = map<string, string>

  /** One `KEY=VALUE` line after splitting, trimming and unquoting. */
  datatype Entry = Entry(key: string, value: string)

  /** `explode($sep, $s, 2)`: the text before the first separator and everything after it. */
  function SplitFirst(s: string, sep: char): (r: Option<(string, string)>)
    ensures r.None? <==> sep !in s
    ensures r.Some? ==> s == r.value.0 + [sep] + r.value.1 && sep !in r.value.0
  {
    if |s| == 0 then None
    else if s[0] == sep then
      assert s == [] + [sep] + s[1..];
      Some(([], s[1..]))
    else
      match SplitFirst(s[1..], sep)
      case None => None
      case Some((before, after)) =>
        assert s == [s[0]] + s[1..];
        Some(([s[0]] + before, after))
  }

  predicate IsQuote(c: char) {
    c == '"' || c == '\''
  }

  /** The value starts and ends with the same quote character (a lone quote counts). */
  predicate IsQuoted(v: string) {
    |v| > 0 && IsQuote(v[0]) && v[|v| - 1] == v[0]
  }

  /**
   * Strips one outer pair of matching quotes. Like `substr($v, 1, -1)`,
   * a value that is a single quote character becomes empty.
   */
  function Unquote(v: string): (r: string)
    ensures !IsQuoted(v) ==> r == v
    ensures IsQuoted(v) && |v| >= 2 ==> v == [v[0]] + r + [v[0]]
    ensures IsQuoted(v) && |v| == 1 ==> r == ""
  {
    if IsQuoted(v) then (if |v| >= 2 then v[1..|v| - 1] else "") else v
  }

  /** Quoting a text and unquoting it gives the text back. */
  lemma UnquoteQuoted(q: char, text: string)
    requires IsQuote(q)
    ensures Unquote([q] + text + [q]) == text
  {
    var v := [q] + text + [q];
    assert v[1..|v| - 1] == text;
  }

  /** A line is skipped when, once trimmed, it is empty, a `#` comment, or has no `=`. */
  predicate IsSkipped(line: string) {
    var t := Trim(line);
    t == [] || t[0] == '#' || '=' !in t
  }

  /** Parses one line of the file, or None for a skipped line. */
  function ParseLine(line: string): (r: Option<Entry>)
    ensures r.None? <==> IsSkipped(line)
    ensures r.Some? ==>
      var t := Trim(line);
      exists i :: 0 <= i < |t| && t[i] == '=' && '=' !in t[..i]
        && r.value.key == Trim(t[..i]) && r.value.value == Unquote(Trim(t[i + 1..]))
  {
    var t := Trim(line);
    if t == [] || t[0] == '#' then None
    else
      match SplitFirst(t, '=')
      case None => None
      case Some((before, after)) =>
        var i := |before|;
        assert t[i] == '=' && t[..i] == before && t[i + 1..] == after;
        Some(Entry(Trim(before), Unquote(Trim(after))))
  }

  /** What one parsed line does to the environment: a new non-empty key is defined, nothing else changes. */
  function ApplyEntry(env: Environment, parsed: Option<Entry>): Environment {
    match parsed
    case None => env
    case Some(e) => if e.key != "" && e.key !in env then env[e.key := e.value] else env
  }

  /** The environment after applying parsed lines in order. */
  function ApplyEntries(env: Environment, parsed: seq<Option<Entry>>): Environment
    decreases |parsed|
  {
    if parsed == [] then env
    else ApplyEntry(ApplyEntries(env, parsed[..|parsed| - 1]), parsed[|parsed| - 1])
  }

  function ParseLines(lines: seq<string>): (parsed: seq<Option<Entry>>)
    ensures |parsed| == |lines|
    ensures forall j :: 0 <= j < |lines| ==> parsed[j] == ParseLine(lines[j])
  {
    seq(|lines|, j requires 0 <= j < |lines| => ParseLine(lines[j]))
  }

  lemma ApplyEntriesStep(env: Environment, parsed: seq<Option<Entry>>, i: nat)
    requires i < |parsed|
    ensures ApplyEntries(env, parsed[..i + 1]) == ApplyEntry(ApplyEntries(env, parsed[..i]), parsed[i])
  {
    assert parsed[..i + 1][..i] == parsed[..i];
  }

  /** The environment after loading the lines of the file in order. */
  function ApplyLines(env: Environment, lines: seq<string>): Environment {
    ApplyEntries(env, ParseLines(lines))
  }

  /**
   * The loader: `is_readable` is modelled by `file` being present, the
   * `foreach` by a loop that updates the environment line by line.
   */
  method LoadEnvFile(env: Environment, file: Option<seq<string>>) returns (result: Environment)
    ensures file.None? ==> result == env
    ensures file.Some? ==> result == ApplyLines(env, file.value)
  {
    result := env;
    if file.None? {
      return;
    }
    var lines := file.value;
    var i := 0;
    while i < |lines|
      invariant 0 <= i <= |lines|
      invariant result == ApplyEntries(env, ParseLines(lines)[..i])
    {
      ApplyEntriesStep(env, ParseLines(lines), i);
      var line := Trim(lines[i]);
      if line == [] || line[0] == '#' {
        assert ParseLine(lines[i]).None?;
        i := i + 1;
        continue;
      }
      var split := SplitFirst(line, '=');
      if split.None? {
        assert ParseLine(lines[i]).None?;
        i := i + 1;
        continue;
      }
      var key := Trim(split.value.0);
      var value := Unquote(Trim(split.value.1));
      assert ParseLine(lines[i]) == Some(Entry(key, value));
      if key != "" && key !in result {
        result := result[key := value];
      }
      i := i + 1;
    }
    assert ParseLines(lines)[..|lines|] == ParseLines(lines);
  }

  /** Lines that are skipped never change the environment. */
  lemma SkippedLineChangesNothing(env: Environment, line: string)
    requires IsSkipped(line)
    ensures ApplyEntry(env, ParseLine(line)) == env
  {
  }

  /**
   * The line is split at its first `=` only, so the value keeps any later
   * `=` characters; key and value are trimmed separately.
   */
  lemma SplitsAtFirstEquals(line: string, before: string, after: string)
    requires Trim(line) == before + "=" + after && '=' !in before
    requires before == [] || before[0] != '#'
    ensures ParseLine(line) == Some(Entry(Trim(before), Unquote(Trim(after))))
  {
    var t := Trim(line);
    assert t == before + ['='] + after;
    SplitFirstUnique(t, '=', before, after);
    assert t[0] != '#' by {
      if before == [] { assert t[0] == '='; } else { assert t[0] == before[0]; }
    }
  }

  /** The first separator is the only place `SplitFirst` can split. */
  lemma {:induction false} SplitFirstUnique(s: string, sep: char, before: string, after: string)
    requires s == before + [sep] + after && sep !in before
    ensures SplitFirst(s, sep) == Some((before, after))
  {
    if before != [] {
      assert s[1..] == before[1..] + [sep] + after;
      SplitFirstUnique(s[1..], sep, before[1..], after);
      assert [s[0]] + before[1..] == before;
    }
  }

  /** Variables already in the environment are never overwritten by the file. */
  lemma {:induction false} ExistingVariablesWin(env: Environment, parsed: seq<Option<Entry>>)
    ensures env.Keys <= ApplyEntries(env, parsed).Keys
    ensures forall k :: k in env ==> ApplyEntries(env, parsed)[k] == env[k]
  {
    if parsed != [] {
      ExistingVariablesWin(env, parsed[..|parsed| - 1]);
    }
  }

  /** Every variable the file adds has a non-empty name and comes from a parsed line with that key and value. */
  lemma {:induction false} AddedVariablesComeFromLines(env: Environment, parsed: seq<Option<Entry>>, k: string)
    requires k in ApplyEntries(env, parsed) && k !in env
    ensures k != ""
    ensures exists i :: (0 <= i < |parsed| && parsed[i] == Some(Entry(k, ApplyEntries(env, parsed)[k])))
  {
    var prefix := parsed[..|parsed| - 1];
    var before := ApplyEntries(env, prefix);
    if k in before {
      AddedVariablesComeFromLines(env, prefix, k);
      var i :| 0 <= i < |prefix| && prefix[i] == Some(Entry(k, before[k]));
      assert parsed[i] == prefix[i];
    } else {
      assert parsed[|parsed| - 1] == Some(Entry(k, ApplyEntries(env, parsed)[k]));
    }
  }

  /** Whether some parsed line defines `key`. */
  predicate DefinesKey(parsed: seq<Option<Entry>>, key: string) {
    exists j :: 0 <= j < |parsed| && parsed[j].Some? && parsed[j].value.key == key
  }

  /**
   * For a key the environment does not define, the first line of the file
   * that sets it decides its value; later repeats are ignored.
   */
  lemma {:induction false} FirstOccurrenceWins(env: Environment, parsed: seq<Option<Entry>>, i: nat)
    requires i < |parsed| && parsed[i].Some?
    requires parsed[i].value.key != "" && parsed[i].value.key !in env
    requires !DefinesKey(parsed[..i], parsed[i].value.key)
    ensures parsed[i].value.key in ApplyEntries(env, parsed)
    ensures ApplyEntries(env, parsed)[parsed[i].value.key] == parsed[i].value.value
  {
    var e := parsed[i].value;
    var prefix := parsed[..|parsed| - 1];
    if i == |parsed| - 1 {
      assert prefix == parsed[..i];
      KeyAbsentWithoutLine(env, prefix, e.key);
    } else {
      assert prefix[i] == parsed[i];
      assert prefix[..i] == parsed[..i];
      FirstOccurrenceWins(env, prefix, i);
    }
  }

  /** A key that no line defines and the environment lacks stays undefined. */
  lemma {:induction false} KeyAbsentWithoutLine(env: Environment, parsed: seq<Option<Entry>>, key: string)
    requires key !in env && !DefinesKey(parsed, key)
    ensures key !in ApplyEntries(env, parsed)
  {
    if parsed != [] {
      var prefix := parsed[..|parsed| - 1];
      forall j | 0 <= j < |prefix|
        ensures !(prefix[j].Some? && prefix[j].value.key == key)
      {
        assert prefix[j] == parsed[j];
      }
      KeyAbsentWithoutLine(env, prefix, key);
    }
  }

  /** Pre-existing variables win over the whole file, and the file adds only non-empty names its lines define. */
  lemma LoadedEnvironment(env: Environment, lines: seq<string>)
    ensures env.Keys <= ApplyLines(env, lines).Keys
    ensures forall k :: k in env ==> ApplyLines(env, lines)[k] == env[k]
    ensures forall k :: k in ApplyLines(env, lines) && k !in env ==> k != ""
    ensures forall k :: k in ApplyLines(env, lines) && k !in env ==>
      exists i :: 0 <= i < |lines| && ParseLine(lines[i]) == Some(Entry(k, ApplyLines(env, lines)[k]))
  {
    var parsed := ParseLines(lines);
    ExistingVariablesWin(env, parsed);
    forall k | k in ApplyLines(env, lines) && k !in env
      ensures k != ""
      ensures exists i :: 0 <= i < |lines| && ParseLine(lines[i]) == Some(Entry(k, ApplyLines(env, lines)[k]))
    {
      AddedVariablesComeFromLines(env, parsed, k);
    }
  }

  /** For a repeated key in the file, the first line that sets it wins. */
  lemma FirstLineWins(env: Environment, lines: seq<string>, i: nat, e: Entry)
    requires i < |lines| && ParseLine(lines[i]) == Some(e)
    requires e.key != "" && e.key !in env
    requires forall j :: 0 <= j < i && ParseLine(lines[j]).Some? ==> ParseLine(lines[j]).value.key != e.key
    ensures e.key in ApplyLines(env, lines) && ApplyLines(env, lines)[e.key] == e.value
  {
    var parsed := ParseLines(lines);
    forall j | 0 <= j < i
      ensures !(parsed[..i][j].Some? && parsed[..i][j].value.key == e.key)
    {
      assert parsed[..i][j] == ParseLine(lines[j]);
    }
    FirstOccurrenceWins(env, parsed, i);
  }
}
