/** What the `.env` loaders of the maintenance scripts have in common: the
    file is split into lines, each line may yield a key and a value, and the
    values are written into one object in line order, so a later line
    overwrites an earlier one with the same key. */
module EnvFiles {
  import opened Options

  /** The key and value a line yields. */
  type Entry = (string, string)

  /** The object built from the lines, given how one line is read. */
  function Load(lines: seq<string>, entry: string -> Option<Entry>): (env: map<string, string>)
    ensures forall k :: k in env ==> exists j :: 0 <= j < |lines| && entry(lines[j]) == Some((k, env[k]))
  {
    if |lines| == 0 then map[]
    else
      var prev := Load(lines[..|lines| - 1], entry);
      assert forall j :: 0 <= j < |lines| - 1 ==> lines[..|lines| - 1][j] == lines[j];
      match entry(lines[|lines| - 1])
      case Some(e) => prev[e.0 := e.1]
      case None => prev
  }

  /** The loop both loaders run: each line in turn, its entry (if any)
      written into the object. */
  method LoadLines(lines: seq<string>, entry: string -> Option<Entry>) returns (env: map<string, string>)
    ensures env == Load(lines, entry)
  {
    env := map[];
    var n := 0;
    while n < |lines|
      invariant n <= |lines|
      invariant env == Load(lines[..n], entry)
    {
      LoadStep(lines, n, entry);
      var e := entry(lines[n]);
      if e.Some? {
        env := env[e.value.0 := e.value.1];
      }
      n := n + 1;
    }
    assert lines[..n] == lines;
  }

  /** One more line updates the object built from the earlier ones. */
  lemma LoadStep(lines: seq<string>, n: nat, entry: string -> Option<Entry>)
    requires n < |lines|
    ensures Load(lines[..n + 1], entry)
      == match entry(lines[n])
         case Some(e) => Load(lines[..n], entry)[e.0 := e.1]
         case None => Load(lines[..n], entry)
  {
    assert lines[..n + 1][..n] == lines[..n];
  }

  /** A key is set exactly when some line yields it, and it holds the value
      of the last such line. */
  lemma {:induction false} LastLineWins(lines: seq<string>, entry: string -> Option<Entry>, j: nat, k: string, v: string)
    requires j < |lines| && entry(lines[j]) == Some((k, v))
    requires forall j' :: j < j' < |lines| ==> entry(lines[j']).None? || entry(lines[j']).value.0 != k
    ensures k in Load(lines, entry) && Load(lines, entry)[k] == v
  {
    var n := |lines| - 1;
    var init := lines[..n];
    if j < n {
      forall j' | j < j' < |init|
        ensures entry(init[j']).None? || entry(init[j']).value.0 != k
      {
        assert init[j'] == lines[j'];
      }
      assert init[j] == lines[j];
      LastLineWins(init, entry, j, k, v);
    }
  }

  /** A key that no line yields is not set. */
  lemma {:induction false} UnsetKey(lines: seq<string>, entry: string -> Option<Entry>, k: string)
    requires forall j :: 0 <= j < |lines| ==> entry(lines[j]).None? || entry(lines[j]).value.0 != k
    ensures k !in Load(lines, entry)
  {
    if |lines| > 0 {
      var init := lines[..|lines| - 1];
      forall j | 0 <= j < |init|
        ensures entry(init[j]).None? || entry(init[j]).value.0 != k
      {
        assert init[j] == lines[j];
      }
      UnsetKey(init, entry, k);
    }
  }
}
