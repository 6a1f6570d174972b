/** The `.env` loader of create_dashboard.js (`loadEnv`, lines 4-14): a line
    is split on `=` and only its first two pieces are read, so the value
    stops at a second `=`, and an empty value piece skips the line. */
module DashboardEnv {
  import opened Options
  import opened JsStrings
  import opened EnvFiles
  import Nav = NavigationEnv

  /** One line: `const [key, value] = line.split('=')`, kept when both pieces
      are non-empty strings (a missing second piece is `undefined`). */
  function LineEntry(line: string): (r: Option<Entry>)
    ensures var i := IndexOf(line, '=');
      r.Some? <==> 0 < i < |line| && IndexOf(line[i + 1..], '=') > 0
    ensures var i := IndexOf(line, '=');
      r.Some? ==> i < |line| && r.value == (Trim(line[..i]), Trim(line[i + 1..][..IndexOf(line[i + 1..], '=')]))
  {
    var parts := Split(line, '=');
    SplitSecondPiece(line, '=');
    if parts[0] != "" && |parts| > 1 && parts[1] != "" then Some((Trim(parts[0]), Trim(parts[1])))
    else None
  }

  /** `loadEnv`. */
  method LoadEnv(content: string) returns (env: map<string, string>)
    ensures env == Load(Split(content, '\n'), LineEntry)
  {
    env := LoadLines(Split(content, '\n'), LineEntry);
  }

  /** Every line this loader keeps is kept by the other loader under the same
      key; the values agree when the line holds a single `=`. */
  lemma KeptByBoth(line: string)
    requires LineEntry(line).Some?
    ensures Nav.LineEntry(line).Some? && Nav.LineEntry(line).value.0 == LineEntry(line).value.0
    ensures '=' !in line[IndexOf(line, '=') + 1..] ==> Nav.LineEntry(line) == LineEntry(line)
  {
    var i := IndexOf(line, '=');
    var rest := line[i + 1..];
    if '=' !in rest {
      IndexOfAbsent(rest, '=');
      assert rest[..|rest|] == rest;
    }
  }

  /** `KEY=` is skipped here, where the other loader sets the key to the
      empty string. */
  lemma EmptyValueIsSkipped()
    ensures LineEntry("KEY=") == None && Nav.LineEntry("KEY=") == Some(("KEY", ""))
  {
    assert IndexOf("KEY=", '=') == 3;
    assert "KEY="[4..] == "";
    Nav.EmptyValueIsKept();
  }

  /** A second `=` cuts the value off here, where the other loader keeps
      it: `key=value=tail` yields `value` here and `value=tail` there. */
  lemma SecondEqualsEndsValue(key: string, value: string, tail: string)
    requires key != "" && value != "" && '=' !in key && '=' !in value
    ensures var line := key + ['='] + value + ['='] + tail;
      LineEntry(line) == Some((Trim(key), Trim(value)))
      && Nav.LineEntry(line) == Some((Trim(key), Trim(value + ['='] + tail)))
  {
    var line := key + ['='] + value + ['='] + tail;
    var rest := value + ['='] + tail;
    assert line == key + ['='] + rest;
    IndexOfAfter(key, rest, '=');
    IndexOfAfter(value, tail, '=');
    assert line[|key| + 1..] == rest && line[..|key|] == key && rest[..|value|] == value;
    Nav.ValueKeepsLaterEquals(key, rest);
  }

  /** A value piece of white space is not empty, so `KEY= ` sets the key to
      the empty string while `KEY=` is skipped. */
  lemma BlankValueIsKept()
    ensures LineEntry("KEY= ") == Some(("KEY", ""))
  {
    assert IndexOf("KEY= ", '=') == 3;
    assert "KEY= "[4..] == " ";
    assert IndexOf(" ", '=') == 1;
    assert "KEY= "[..3] == "KEY" && " "[..1] == " ";
    TrimUnchanged("KEY");
    assert TrimStart(" ") == "";
  }
}
