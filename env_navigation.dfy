/** The `.env` loader of check_navigation.js (lines 9-15), which the other
    maintenance scripts repeat: a line is split on `=`, the text before the
    first `=` is the key and everything after it, later `=` signs included,
    is the value, both trimmed. */
module NavigationEnv {
  import opened Options
  import opened JsStrings
  import opened EnvFiles

  /** One line: `const [key, ...valueParts] = line.split('=')`, kept when
      `key` (untrimmed) is not empty and there is at least one value part. */
  function LineEntry(line: string): (r: Option<Entry>)
    ensures var i := IndexOf(line, '=');
      r.Some? <==> 0 < i < |line|
    ensures var i := IndexOf(line, '=');
      r.Some? ==> r.value == (Trim(line[..i]), Trim(line[i + 1..]))
  {
    var parts := Split(line, '=');
    AfterFirst(line);
    if parts[0] != "" && |parts| > 1 then Some((Trim(parts[0]), Trim(Join(parts[1..], '='))))
    else None
  }

  /** The pieces of a line with an `=`, past the first, join back into the
      text after the first `=`. */
  lemma AfterFirst(line: string)
    ensures var i := IndexOf(line, '=');
      Split(line, '=')[0] == line[..i]
      && (|Split(line, '=')| > 1 <==> i < |line|)
      && (i < |line| ==> Join(Split(line, '=')[1..], '=') == line[i + 1..])
  {
    SplitAtFirst(line, '=');
    var i := IndexOf(line, '=');
    if i < |line| {
      JoinSplit(line[i + 1..], '=');
    }
  }

  /** `KEY=` sets the key to the empty string. */
  lemma EmptyValueIsKept()
    ensures LineEntry("KEY=") == Some(("KEY", ""))
  {
    assert IndexOf("KEY=", '=') == 3;
    assert "KEY="[..3] == "KEY" && "KEY="[4..] == "";
    TrimUnchanged("KEY");
    TrimUnchanged("");
  }

  /** A value keeps the `=` signs after the first one: a line `key=rest`
      with a non-empty key and no `=` in it yields the key and all of `rest`,
      both trimmed. */
  lemma ValueKeepsLaterEquals(key: string, rest: string)
    requires key != "" && '=' !in key
    ensures LineEntry(key + ['='] + rest) == Some((Trim(key), Trim(rest)))
  {
    var line := key + ['='] + rest;
    IndexOfAfter(key, rest, '=');
    assert line[..|key|] == key && line[|key| + 1..] == rest;
  }

  /** A line without `=`, or with nothing before its first `=`, is skipped. */
  lemma LinesWithoutKeyAreSkipped()
    ensures LineEntry("KEY") == None
    ensures LineEntry("=v") == None
  {
    assert IndexOf("KEY", '=') == 3;
    assert IndexOf("=v", '=') == 0;
  }

  /** `envContent.split('\n').forEach(...)`, writing into `envVars`. */
  method LoadEnv(content: string) returns (env: map<string, string>)
    ensures env == Load(Split(content, '\n'), LineEntry)
  {
    env := LoadLines(Split(content, '\n'), LineEntry);
  }
}
