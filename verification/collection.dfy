/** Sequential collection. Every collector fills its record by awaiting one
    command after another, in the order the fields are written in its
    category methods and the categories in `CollectTelemetryDataAsync`; the
    first exception ends the collection and no later command is started.
    A collector is modelled as a plan, the list of its fields in that order,
    run by `Execute`, which also records the commands it issued. */
module Collection {
  import opened Wrappers
  import opened Model
  import opened Numbers

  /** Text fields take the command's output as it is; integer fields pass it
      through `int.Parse`. */
  datatype Kind = TextField | IntField

  /** A field of the record: the command that produces it, from the
      collector's command set `C`, and how its output is read. */
  datatype Field<C> = Field(command: C, kind: Kind)

  datatype Value = TextValue(text: string) | IntValue(number: int)

  /** A collector's `ExecuteCommand`, seen as a function of the command. */
  type Runner<!C> = C -> Result<string, Error>

  /** The commands of a plan, in order. */
  function Commands<C>(plan: seq<Field<C>>): (cs: seq<C>)
    ensures |cs| == |plan|
    ensures forall i :: 0 <= i < |plan| ==> cs[i] == plan[i].command
  {
    if |plan| == 0 then [] else [plan[0].command] + Commands(plan[1..])
  }

  /** The integer reader. The collectors call `int.Parse`, which
      `Numbers.ParseInt32` models and which the factory passes in. */
  type Parser = string -> Result<int, ParseError>

  /** One field: run its command, and parse the output if the field is an
      integer. A failed command's error is the field's error; a text field
      holds the output as it is; an integer field holds the number the
      parser reads, and a parse failure becomes the matching error carrying
      the output. */
  function Step<C>(exec: Runner<C>, parse: Parser, f: Field<C>): (r: Result<Value, Error>)
    ensures exec(f.command).Failure? ==> r == Failure(exec(f.command).error)
    ensures r.Success? ==> exec(f.command).Success?
    ensures r.Success? ==> (r.value.IntValue? <==> f.kind == IntField)
    ensures f.kind == TextField ==> r.Success? == exec(f.command).Success?
    ensures f.kind == TextField && exec(f.command).Success? ==>
      r == Success(TextValue(exec(f.command).value))
    ensures f.kind == IntField && exec(f.command).Success? ==>
      var out := exec(f.command).value;
      && (r.Success? <==> parse(out).Success?)
      && (r.Success? ==> r.value == IntValue(parse(out).value))
      && (parse(out) == Failure(BadFormat) ==> r == Failure(FormatError(out)))
      && (parse(out) == Failure(Overflow) ==> r == Failure(OverflowError(out)))
  {
    var out :- exec(f.command);
    match f.kind
    case TextField => Success(TextValue(out))
    case IntField =>
      match parse(out)
      case Success(n) => Success(IntValue(n))
      case Failure(BadFormat) => Failure(FormatError(out))
      case Failure(Overflow) => Failure(OverflowError(out))
  }

  /** The commands issued, and either the values of all fields or the
      failure that ended the run. */
  datatype Run<C> = Run(issued: seq<C>, outcome: Result<seq<Value>, Error>)

  /** Runs the fields of `plan` in order and stops at the first failure. The
      commands issued are always a prefix of the plan's commands. */
  function Execute<C>(exec: Runner<C>, parse: Parser, plan: seq<Field<C>>): (r: Run<C>)
    ensures |r.issued| <= |plan| && r.issued == Commands(plan[..|r.issued|])
  {
    if |plan| == 0 then Run([], Success([]))
    else
      match Step(exec, parse, plan[0])
      case Failure(e) =>
        assert Commands(plan[..1]) == [plan[0].command];
        Run([plan[0].command], Failure(e))
      case Success(v) =>
        var rest := Execute(exec, parse, plan[1..]);
        var issued := [plan[0].command] + rest.issued;
        assert Commands(plan[..|issued|]) == issued by {
          assert plan[..|issued|][1..] == plan[1..][..|rest.issued|];
        }
        match rest.outcome
        case Success(vs) => Run(issued, Success([v] + vs))
        case Failure(e) => Run(issued, Failure(e))
  }

  /** A complete run issued every command and has one value per field, each
      the value of its field's step; a failed run ended at the last command
      it issued, which failed with the reported error after every earlier
      field succeeded; and the run is complete exactly when every field
      succeeds. */
  lemma {:induction false} ExecuteOutcome<C>(exec: Runner<C>, parse: Parser, plan: seq<Field<C>>)
    ensures var r := Execute(exec, parse, plan);
      r.outcome.Success? ==>
        && |r.issued| == |plan|
        && |r.outcome.value| == |plan|
        && forall i :: 0 <= i < |plan| ==> Step(exec, parse, plan[i]) == Success(r.outcome.value[i])
    ensures var r := Execute(exec, parse, plan);
      r.outcome.Failure? ==>
        && 0 < |r.issued|
        && Step(exec, parse, plan[|r.issued| - 1]) == Failure(r.outcome.error)
        && forall i :: 0 <= i < |r.issued| - 1 ==> Step(exec, parse, plan[i]).Success?
    ensures Execute(exec, parse, plan).outcome.Success? <==> forall i :: 0 <= i < |plan| ==> Step(exec, parse, plan[i]).Success?
  {
    if |plan| > 0 && Step(exec, parse, plan[0]).Success? {
      var tail := plan[1..];
      ExecuteOutcome(exec, parse, tail);
      assert forall i :: 0 < i < |plan| ==> plan[i] == tail[i - 1];
    }
  }

  /** The first failing field ends the run: its error is the outcome, and the
      commands issued are exactly those of the fields up to and including it,
      so no later command is started. */
  lemma {:induction false} FirstFailureEndsRun<C>(exec: Runner<C>, parse: Parser, plan: seq<Field<C>>, k: nat)
    requires k < |plan| && Step(exec, parse, plan[k]).Failure?
    requires forall i :: 0 <= i < k ==> Step(exec, parse, plan[i]).Success?
    ensures Execute(exec, parse, plan).outcome == Failure(Step(exec, parse, plan[k]).error)
    ensures Execute(exec, parse, plan).issued == Commands(plan[..k + 1])
  {
    if k == 0 {
      assert Execute(exec, parse, plan) == Run([plan[0].command], Failure(Step(exec, parse, plan[0]).error));
      CommandsCons(plan[0], []);
      assert plan[..1] == [plan[0]] + [];
    } else {
      var tail := plan[1..];
      assert Step(exec, parse, plan[0]).Success?;
      assert forall i :: 0 <= i < k - 1 ==> tail[i] == plan[i + 1];
      assert tail[k - 1] == plan[k];
      FirstFailureEndsRun(exec, parse, tail, k - 1);
      var rest := Execute(exec, parse, tail);
      assert Execute(exec, parse, plan) == Run([plan[0].command] + rest.issued, rest.outcome);
      CommandsCons(plan[0], tail[..k]);
      assert plan[..k + 1] == [plan[0]] + tail[..k];
    }
  }

  lemma CommandsCons<C>(f: Field<C>, plan: seq<Field<C>>)
    ensures Commands([f] + plan) == [f.command] + Commands(plan)
  {
    assert ([f] + plan)[1..] == plan;
  }

  /** The values fit the plan: one per field, an integer exactly where the
      field is an integer field. */
  predicate Conforms<C>(values: seq<Value>, plan: seq<Field<C>>) {
    && |values| == |plan|
    && forall i :: 0 <= i < |plan| ==> (values[i].IntValue? <==> plan[i].kind == IntField)
  }

  lemma ExecuteConforms<C>(exec: Runner<C>, parse: Parser, plan: seq<Field<C>>)
    requires Execute(exec, parse, plan).outcome.Success?
    ensures Conforms(Execute(exec, parse, plan).outcome.value, plan)
  {
    var values := Execute(exec, parse, plan).outcome.value;
    ExecuteOutcome(exec, parse, plan);
    forall i | 0 <= i < |plan|
      ensures values[i].IntValue? <==> plan[i].kind == IntField
    {
      assert Step(exec, parse, plan[i]) == Success(values[i]);
    }
  }

  /** `exec` reports `text` for `command`. */
  predicate Yields<C>(exec: Runner<C>, command: C, text: string) {
    exec(command) == Success(text)
  }

  /** `exec` reports, for `command`, text that `int.Parse` reads as `n`. */
  predicate YieldsInt<C>(exec: Runner<C>, parse: Parser, command: C, n: int) {
    exec(command).Success? && parse(exec(command).value) == Success(n)
  }
}
