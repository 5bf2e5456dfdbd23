/** Shell completion for the `karma` command (exercised by
    `test/unit/completion.spec.js`): the words offered for the word being
    typed, given the words already on the line. What the source prints
    line by line is returned here as a sequence. */
module Completion {
  import opened Wrappers
  import opened Strings

  /** The completion environment the shell hands over: the words of the
      line, the last of which is the one being typed. */
  datatype Env = Env(words: seq<string>)
  {
    function Count(): nat { |words| }
    function Last(): string { if words == [] then "" else words[|words| - 1] }
  }

  /** The environment of a typed line, split at single spaces. */
  function EnvOf(line: string): Env {
    Env(Split(line, " "))
  }

  /** `opositeWord`: an option and its `--no-` form name each other; a
      word that is not an option has no opposite. */
  function OpositeWord(word: string): Option<string> {
    if !StartsWith(word, "-") then None
    else if StartsWith(word, "--no-") then Some("--" + word[5..])
    else Some("--no-" + Drop(word, 2))
  }

  /** JavaScript's `s.substr(n)`: empty once `n` runs past the end. */
  function Drop(s: string, n: nat): string {
    if |s| <= n then "" else s[n..]
  }

  /** `--x` and `--no-x` are each other's opposite, for an `x` that does not
      itself start with `no-`; so on those forms `OpositeWord` is an
      involution. */
  lemma OpositePair(x: string)
    requires !StartsWith(x, "no-")
    ensures OpositeWord("--" + x) == Some("--no-" + x)
    ensures OpositeWord("--no-" + x) == Some("--" + x)
    ensures OpositeWord(OpositeWord("--" + x).value) == Some("--" + x)
  {
    var w := "--" + x;
    assert w[2..] == x;
    assert ("--no-" + x)[5..] == x;
  }

  /** Whether `word` is offered: it extends the word being typed, and
      neither it nor its opposite is on the line already. */
  predicate Offered(word: string, env: Env) {
    StartsWith(word, env.Last()) && word !in env.words
    && (OpositeWord(word).None? || OpositeWord(word).value !in env.words)
  }

  /** `sendCompletion(possibleWords, env)`: the possible words that are
      offered, in their order. */
  function SendCompletion(possible: seq<string>, env: Env): seq<string> {
    if possible == [] then []
    else if Offered(possible[0], env) then [possible[0]] + SendCompletion(possible[1..], env)
    else SendCompletion(possible[1..], env)
  }

  /** A word is printed exactly when it is possible and offered, and the
      printed words keep the order of the possible ones. */
  lemma {:induction false} SendCompletionExactly(possible: seq<string>, env: Env)
    ensures forall w :: w in SendCompletion(possible, env) <==> w in possible && Offered(w, env)
    ensures SubsequenceOf(SendCompletion(possible, env), possible)
  {
    if possible != [] {
      var rest := possible[1..];
      SendCompletionExactly(rest, env);
      assert possible == [possible[0]] + rest;
      var r := SendCompletion(possible, env);
      if !Offered(possible[0], env) && r != [] {
        assert r[0] in r;
      }
    }
  }

  /** `xs` is `ys` with some entries left out, in the same order. */
  predicate SubsequenceOf(xs: seq<string>, ys: seq<string>) {
    if xs == [] then true
    else if ys == [] then false
    else if xs[0] == ys[0] then SubsequenceOf(xs[1..], ys[1..])
    else SubsequenceOf(xs, ys[1..])
  }

  /** A used word, and a word whose opposite is used, are not offered
      again. */
  lemma SendCompletionExamples()
    ensures SendCompletion(["--single-run", "--port", "--xxx"], Env(["start", "--single-run", ""]))
      == ["--port", "--xxx"]
    ensures SendCompletion(["--auto-watch", "--port"], Env(["start", "--no-auto-watch", ""]))
      == ["--port"]
  {
    UsedWordExample();
    UsedOppositeExample();
  }

  /** A word already on the line is not offered. */
  lemma UsedWordExample()
    ensures SendCompletion(["--single-run", "--port", "--xxx"], Env(["start", "--single-run", ""]))
      == ["--port", "--xxx"]
  {
    var env := Env(["start", "--single-run", ""]);
    assert "--port"[2] != "--no-"[2] && "--port"[2..] == "port";
    assert "--xxx"[2] != "--no-"[2] && "--xxx"[2..] == "xxx";
    assert Offered("--port", env) && Offered("--xxx", env);
    SendCompletionThree("--single-run", "--port", "--xxx", env);
  }

  /** A word whose `--no-` form is on the line is not offered. */
  lemma UsedOppositeExample()
    ensures SendCompletion(["--auto-watch", "--port"], Env(["start", "--no-auto-watch", ""]))
      == ["--port"]
  {
    var env := Env(["start", "--no-auto-watch", ""]);
    assert "--auto-watch"[2] != "--no-"[2] && "--auto-watch"[2..] == "auto-watch";
    assert "--port"[2] != "--no-"[2] && "--port"[2..] == "port";
    assert "--no-" + "auto-watch" == "--no-auto-watch";
    assert OpositeWord("--auto-watch") == Some("--no-auto-watch");
    assert Offered("--port", env);
    SendCompletionTwo("--auto-watch", "--port", env);
  }

  /** `SendCompletion` on one word. */
  lemma SendCompletionOne(a: string, env: Env)
    ensures SendCompletion([a], env) == if Offered(a, env) then [a] else []
  {
    assert [a][1..] == [];
  }

  /** `SendCompletion` on two words, one word at a time. */
  lemma SendCompletionTwo(a: string, b: string, env: Env)
    ensures SendCompletion([a, b], env)
      == (if Offered(a, env) then [a] else []) + (if Offered(b, env) then [b] else [])
  {
    assert [a, b][1..] == [b];
    SendCompletionOne(b, env);
  }

  /** `SendCompletion` on three words, one word at a time. */
  lemma SendCompletionThree(a: string, b: string, c: string, env: Env)
    ensures SendCompletion([a, b, c], env)
      == (if Offered(a, env) then [a] else []) + (if Offered(b, env) then [b] else [])
         + (if Offered(c, env) then [c] else [])
  {
    assert [a, b, c][1..] == [b, c];
    SendCompletionTwo(b, c, env);
    var x, y, z := (if Offered(a, env) then [a] else []), (if Offered(b, env) then [b] else []),
      (if Offered(c, env) then [c] else []);
    assert x + (y + z) == x + y + z;
  }

  /** The commands `karma` accepts, in the order they are offered. */
  const Commands: seq<string> := ["start", "init", "run"]

  /** `complete(env)` while the command itself is typed: the commands
      the partial word could begin. */
  function Complete(env: Env): seq<string>
    requires env.Count() == 1
  {
    SendCompletion(Commands, env)
  }

  /** An empty line offers every command, in order; `s` offers `start`
      only. */
  lemma CompleteCommands()
    ensures Complete(Env([""])) == ["start", "init", "run"]
    ensures Complete(Env(["s"])) == ["start"]
  {
    assert Commands[..2][..1] == ["start"] && Commands[..2] == ["start", "init"];
    assert "init"[0] != "s"[0] && "run"[0] != "s"[0];
  }
}
