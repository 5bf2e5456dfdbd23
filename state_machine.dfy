/** The question machine of `karma init` (exercised by
    `test/unit/init/state_machine.spec.js`): questions are asked in order,
    each line typed answers the current one, and the collected answers are
    handed to `done` after the last question. The terminal (prompting,
    colours, option suggestions on key presses) is not modelled. */
module StateMachine {
  import opened Wrappers
  import opened Strings

  /** An answer value: the typed text, a yes/no flag, or `null` for an
      empty line. */
  datatype Value = Text(text: string) | Flag(flag: bool) | Null

  /** What is stored under a question id: one value, or the list a
      `multiple` question collects. */
  datatype Answer = One(value: Value) | Many(values: seq<Value>)

  type Answers = map<string, Answer>

  /** A question: its id, whether it collects several lines, whether its
      answer is a yes/no flag, whether it has a validator, the options a
      line must be one of, and the condition that decides whether it is
      asked at all. */
  datatype Question = Question(
    id: string,
    multiple: bool,
    boolean: bool,
    validated: bool,
    options: Option<seq<string>>,
    condition: Option<Answers -> bool>)

  /** Whether `q` is asked, given the answers so far. */
  predicate Asked(q: Question, answers: Answers) {
    q.condition.None? || q.condition.value(answers)
  }

  /** The queue once the questions whose condition fails are dropped from
      its front. */
  function Skip(qs: seq<Question>, answers: Answers): seq<Question> {
    if qs == [] || Asked(qs[0], answers) then qs else Skip(qs[1..], answers)
  }

  /** `Skip` drops a prefix of the queue, every question of which fails its
      condition, and stops at one that is asked. */
  lemma {:induction false} SkipShape(qs: seq<Question>, answers: Answers)
    ensures |Skip(qs, answers)| <= |qs| && Skip(qs, answers) == qs[|qs| - |Skip(qs, answers)|..]
    ensures Skip(qs, answers) == [] || Asked(Skip(qs, answers)[0], answers)
    ensures forall k :: 0 <= k < |qs| - |Skip(qs, answers)| ==> !Asked(qs[k], answers)
  {
    if qs != [] && !Asked(qs[0], answers) {
      SkipShape(qs[1..], answers);
      var r := Skip(qs, answers);
      assert forall k :: 1 <= k < |qs| - |r| ==> qs[k] == qs[1..][k - 1];
    }
  }

  /** The value a line gives the question `q`: the trimmed text, `null`
      when that is empty, and for a yes/no question whether it is `yes`. */
  function Parse(q: Question, line: string): Value {
    var t := Trim(line);
    if q.boolean then Flag(t == "yes")
    else if t == "" then Null
    else Text(t)
  }

  /** A yes/no question always gets a flag, true exactly for `yes`; any
      other question gets `null` exactly for a blank line, and otherwise
      the line without its surrounding white space. */
  lemma ParseValues(q: Question, line: string)
    ensures q.boolean ==> Parse(q, line) == Flag(Trim(line) == "yes")
    ensures !q.boolean ==> (Parse(q, line) == Null <==> IsBlank(line))
    ensures !q.boolean && !IsBlank(line) ==> Parse(q, line) == Text(Trim(line))
  {
    TrimShape(line);
  }

  /** `options` without the entry at `i`. */
  function RemoveAt(options: seq<string>, i: nat): (r: seq<string>)
    requires i < |options|
    ensures |r| == |options| - 1
    ensures forall k :: 0 <= k < i ==> r[k] == options[k]
    ensures forall k :: i <= k < |r| ==> r[k] == options[k + 1]
  {
    options[..i] + options[i + 1..]
  }

  /** The first position of `x` in `xs`. */
  function Find(xs: seq<string>, x: string): (r: Option<nat>)
    ensures r.Some? ==> r.value < |xs| && xs[r.value] == x && x !in xs[..r.value]
    ensures r.None? <==> x !in xs
  {
    if xs == [] then None
    else if xs[0] == x then Some(0)
    else
      var r := Find(xs[1..], x);
      if r.None? then None
      else
        assert xs[..r.value + 1] == [xs[0]] + xs[1..][..r.value];
        Some(r.value + 1)
  }

  /** The list collected so far for a `multiple` question: the source's
      `answers[id] || []`. */
  function Collected(answers: Answers, id: string): seq<Value> {
    if id in answers && answers[id].Many? then answers[id].values else []
  }

  class Machine {
    var queue: seq<Question>             // questions not asked yet
    var current: Option<Question>        // the question being answered
    var options: Option<seq<string>>     // its options not picked yet
    var answers: Answers
    var validations: seq<(string, Value)> // each call of a validator: question id and value
    var finished: Option<Answers>        // what `done` was called with

    /** The state `nextQuestion()` leaves, from the queue `q0` and with
        `f0` what `done` had been called with before. */
    ghost predicate MovedOn(q0: seq<Question>, f0: Option<Answers>)
      reads this`answers, this`current, this`options, this`queue, this`finished
    {
      var next := Skip(q0, answers);
      if next == [] then current == None && options == None && queue == [] && finished == Some(answers)
      else current == Some(next[0]) && options == next[0].options && queue == next[1..] && finished == f0
    }

    constructor()
      ensures queue == [] && current == None && options == None
      ensures answers == map[] && validations == [] && finished == None
    {
      queue := [];
      current := None;
      options := None;
      answers := map[];
      validations := [];
      finished := None;
    }

    /** `process(questions, done)`: start afresh with `questions`. */
    method Process(questions: seq<Question>)
      modifies this
      ensures answers == map[] && validations == old(validations)
      ensures MovedOn(questions, old(finished))
    {
      queue := questions;
      answers := map[];
      NextQuestion();
    }

    /** `nextQuestion()`: take questions off the queue until one whose
        condition holds (or that has none); ask it, or call `done` with the
        answers when the queue runs out. */
    method NextQuestion()
      modifies this`queue, this`current, this`options, this`finished
      ensures MovedOn(old(queue), old(finished))
    {
      ghost var next := Skip(queue, answers);
      while queue != [] && !Asked(queue[0], answers)
        invariant Skip(queue, answers) == next && finished == old(finished)
      {
        queue := queue[1..];
      }
      if queue != [] {
        current := Some(queue[0]);
        options := queue[0].options;
        queue := queue[1..];
      } else {
        current := None;
        options := None;
        finished := Some(answers);
      }
    }

    /** A value for a `multiple` question joins its list, and the option
        picked (at `at`) is no longer offered. */
    method AddPicked(id: string, v: Value, at: Option<nat>)
      requires options.Some? ==> at.Some? && at.value < |options.value|
      modifies this`answers, this`options
      ensures answers == old(answers)[id := Many(Collected(old(answers), id) + [v])]
      ensures options == (if old(options).None? then None else Some(RemoveAt(old(options).value, at.value)))
    {
      answers := answers[id := Many(Collected(answers, id) + [v])];
      if options.Some? {
        options := Some(RemoveAt(options.value, at.value));
      }
    }

    /** The answer is stored and the machine moves on to the next question. */
    method StoreAndMoveOn(id: string, a: Answer)
      modifies this`answers, this`queue, this`current, this`options, this`finished
      ensures answers == old(answers)[id := a]
      ensures MovedOn(old(queue), old(finished))
    {
      answers := answers[id := a];
      NextQuestion();
    }

    /** The validator of `q`, when it has one, is called with a value that
        is not `null`. */
    method Validate(q: Question, v: Value)
      modifies this`validations
      ensures validations == old(validations) + (if q.validated && v != Null then [(q.id, v)] else [])
    {
      if q.validated && v != Null {
        validations := validations + [(q.id, v)];
      }
    }

    /** The value `v` a line gave the question `q` is added to the list of
        a `multiple` question, or stored, moving on to the next question. */
    method Record(q: Question, v: Value, at: Option<nat>)
      requires options.Some? ==> at.Some? && at.value < |options.value|
      modifies this`queue, this`current, this`options, this`answers, this`finished
      ensures q.multiple ==> answers == old(answers)[q.id := Many(Collected(old(answers), q.id) + (if v != Null then [v] else []))]
      ensures !q.multiple ==> answers == old(answers)[q.id := One(v)]
      ensures q.multiple && v != Null ==>
        queue == old(queue) && current == old(current) && finished == old(finished)
        && options == (if old(options).None? then None else Some(RemoveAt(old(options).value, at.value)))
      ensures !(q.multiple && v != Null) ==> MovedOn(old(queue), old(finished))
    {
      if q.multiple && v != Null {
        AddPicked(q.id, v, at);
      } else if q.multiple {
        assert Collected(answers, q.id) + [] == Collected(answers, q.id);
        StoreAndMoveOn(q.id, Many(Collected(answers, q.id)));
      } else {
        StoreAndMoveOn(q.id, One(v));
      }
    }

    /** `onLine(line)`: with no question pending nothing happens; a line
        that is not one of the remaining options is ignored. Otherwise the
        line is parsed, validated unless it is `null`, and then either added
        to the list of a `multiple` question (whose options lose the one
        picked) or stored, moving on to the next question. A `null` line
        closes a `multiple` question, whose answer is then a list, possibly
        empty. */
    method OnLine(line: string)
      modifies this`queue, this`current, this`options, this`answers, this`validations, this`finished
      ensures old(current).None? || (old(options).Some? && Trim(line) !in old(options).value) ==>
        queue == old(queue) && current == old(current) && options == old(options)
        && answers == old(answers) && validations == old(validations) && finished == old(finished)
      ensures old(current).Some? && (old(options).None? || Trim(line) in old(options).value) ==>
        var q := old(current).value;
        var v := Parse(q, line);
        && validations == old(validations) + (if q.validated && v != Null then [(q.id, v)] else [])
        && (if q.multiple
            then answers == old(answers)[q.id := Many(Collected(old(answers), q.id) + (if v != Null then [v] else []))]
            else answers == old(answers)[q.id := One(v)])
        && (if q.multiple && v != Null
            then queue == old(queue) && current == old(current) && finished == old(finished)
              && options == (if old(options).None? then None
                             else Some(RemoveAt(old(options).value, Find(old(options).value, Trim(line)).value)))
            else MovedOn(old(queue), old(finished)))
    {
      if current.None? {
        return;
      }
      var q := current.value;
      var t := Trim(line);
      var at: Option<nat> := None;
      if options.Some? {
        at := Find(options.value, t);
        if at.None? {
          return;
        }
      }
      var v := Parse(q, line);
      Validate(q, v);
      Record(q, v, at);
    }
  }
}
