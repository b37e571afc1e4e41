/** What loops and definitions write: a run only appends to its output, a loop writes what its
    rounds write one after another, and a definition is what its section writes. */
module EztBlocks {
  import opened Wrappers
  import opened EztSyntax
  import opened EztCompiler
  import opened EztRender
  import opened EztGrammar
  import opened EztInterpreter
  import opened EztCompose
  import opened EztMeaning

  /* ----- a run only appends ----- */

  function After(pre: string, st: State): State {
    st.(out := pre + st.out)
  }

  function OutcomeAfter(pre: string, o: Outcome): Outcome {
    o.(st := After(pre, o.st))
  }

  lemma {:induction false} RunAppends(steps: seq<Step>, st: State, data: Data, pre: string)
    ensures Run(steps, After(pre, st), data) == OutcomeAfter(pre, Run(steps, st, data))
    decreases steps, 0, 0
  {
    if steps != [] {
      StepAppends(steps[0], st, data, pre);
      var o := ExecStep(steps[0], st, data, Prepared);
      if o.error.None? {
        RunAppends(steps[1..], o.st, data, pre);
      }
    }
  }

  ghost predicate Appends(step: Step, st: State, data: Data, pre: string) {
    ExecStep(step, After(pre, st), data, Prepared) == OutcomeAfter(pre, ExecStep(step, st, data, Prepared))
  }

  lemma {:induction false} StepAppends(step: Step, st: State, data: Data, pre: string)
    ensures Appends(step, st, data, pre)
    decreases step, 1, 0
  {
    match step
    case Text(s) => Assoc(pre, st.out, s);
    case Print(p, refs) => PrintAppends(p, refs, st, data, pre);
    case Include(_) =>
    case Block(For(list), onTrue, body) => ForAppends(list, onTrue, body, st, data, pre);
    case Block(Define(_), _, body) => DefineAppends(step, st, data, pre);
    case Block(cmd, onTrue, body) =>
      RunAppends(body, st, data, pre);
      if onTrue.Present? {
        RunAppends(onTrue.steps, st, data, pre);
      }
      IfAppends(cmd, onTrue, body, st, data, pre);
  }

  lemma Assoc(a: string, b: string, c: string)
    ensures a + (b + c) == a + b + c
  {
  }

  lemma PrintAppends(p: Printer, refs: seq<ValRef>, st: State, data: Data, pre: string)
    ensures Appends(Print(p, refs), st, data, pre)
  {
    GetAllIgnoresOutput(refs, st, pre + st.out, data);
    var values := GetAll(refs, st, data, Prepared);
    if values.Ok? {
      Assoc(pre, st.out, PrintValues(values.value, p).0);
    }
  }

  lemma DefineAppends(step: Step, st: State, data: Data, pre: string)
    requires step.Block? && step.cmd.Define?
    ensures Appends(step, st, data, pre)
  {
    assert After(pre, st).(out := "") == st.(out := "");
  }

  lemma IfAppends(cmd: Command, onTrue: Section, body: seq<Step>, st: State, data: Data, pre: string)
    requires cmd.IfAny? || cmd.IfIndex? || cmd.Is?
    requires Run(body, After(pre, st), data) == OutcomeAfter(pre, Run(body, st, data))
    requires onTrue.Present? ==>
               Run(onTrue.steps, After(pre, st), data) == OutcomeAfter(pre, Run(onTrue.steps, st, data))
    ensures Appends(Block(cmd, onTrue, body), st, data, pre)
  {
    ConditionIgnoresOutput(cmd, st, pre + st.out, data);
  }

  lemma {:induction false} ForAppends(list: ValRef, onTrue: Section, body: seq<Step>, st: State, data: Data,
                                      pre: string)
    ensures Appends(Block(For(list), onTrue, body), st, data, pre)
    decreases body, 2, 0
  {
    var v := GetPrepared(list, st, data);
    assert GetPrepared(list, After(pre, st), data) == v;
    if v.Ok? && v.value.List? && list.Ref? {
      var items := v.value.items;
      LoopAppends(list.refname, items, 0, body, Begin(list.refname, items, st), data, pre);
    }
  }

  lemma {:induction false} LoopAppends(name: string, items: seq<Value>, i: nat, body: seq<Step>, st: State, data: Data,
                                       pre: string)
    requires i <= |items|
    ensures ForLoop(name, items, i, body, After(pre, st), data, Prepared)
         == OutcomeAfter(pre, ForLoop(name, items, i, body, st, data, Prepared))
    decreases body, 1, |items| - i
  {
    if i < |items| {
      RunAppends(body, st, data, pre);
      var o := Run(body, st, data);
      if o.error.None? {
        LoopAppends(name, items, i + 1, body, Increment(name, items, i, o.st), data, pre);
      }
    }
  }

  /** The output of a run is what it starts with, followed by what it writes from nothing. */
  lemma WritesFrom(steps: seq<Step>, st: State, data: Data)
    ensures Run(steps, st, data) == OutcomeAfter(st.out, Run(steps, st.(out := ""), data))
  {
    RunAppends(steps, st.(out := ""), data, st.out);
    assert st.out + "" == st.out;
    assert After(st.out, st.(out := "")) == st;
  }

  /* ----- loops ----- */

  // The rounds of a loop: each runs the body from no output, with its item current and with the
  // definitions that the round before has left, completes, and leaves the loops as they are.
  ghost predicate Rounds(rounds: seq<Outcome>, x: string, items: seq<Value>, body: seq<Step>, st: State, data: Data) {
    && |rounds| == |items|
    && forall i :: 0 <= i < |rounds| ==> IsRound(rounds, i, x, items, body, st, data)
  }

  ghost predicate IsRound(rounds: seq<Outcome>, i: nat, x: string, items: seq<Value>, body: seq<Step>, st: State,
                          data: Data)
    requires i < |rounds|
  {
    var loops := st.forIndex[x := (items, i)];
    var defines := if i == 0 then st.defines else rounds[i - 1].st.defines;
    && rounds[i] == Run(body, State(loops, defines, ""), data)
    && rounds[i].error.None? && rounds[i].st.forIndex == loops
  }

  // What the rounds from the i-th on write.
  function Written(rounds: seq<Outcome>, i: nat): string
    requires i <= |rounds|
    decreases |rounds| - i
  {
    if i == |rounds| then "" else rounds[i].st.out + Written(rounds, i + 1)
  }

  function LeftDefines(rounds: seq<Outcome>, st: State): map<string, string> {
    if rounds == [] then st.defines else rounds[|rounds| - 1].st.defines
  }

  lemma {:induction false} RoundsRun(x: string, items: seq<Value>, i: nat, body: seq<Step>, st: State, data: Data,
                                     rounds: seq<Outcome>, out: string)
    requires Rounds(rounds, x, items, body, st, data) && i <= |items| && x !in st.forIndex
    ensures var defines := if i == 0 then st.defines else rounds[i - 1].st.defines;
            var now := State(st.forIndex[x := (items, i)], defines, out);
            ForLoop(x, items, i, body, now, data, Prepared) ==
            Outcome(State(st.forIndex, LeftDefines(rounds, st), out + Written(rounds, i)), None)
    decreases |items| - i
  {
    var defines := if i == 0 then st.defines else rounds[i - 1].st.defines;
    var now := State(st.forIndex[x := (items, i)], defines, out);
    if i == |items| {
      assert now.forIndex - {x} == st.forIndex;
      assert out + "" == out;
    } else {
      assert IsRound(rounds, i, x, items, body, st, data);
      WritesFrom(body, now, data);
      var o := Run(body, now, data);
      assert o == Outcome(State(now.forIndex, rounds[i].st.defines, out + rounds[i].st.out), None);
      var next := Increment(x, items, i, o.st);
      assert next.forIndex == st.forIndex[x := (items, i + 1)];
      RoundsRun(x, items, i + 1, body, st, data, rounds, out + rounds[i].st.out);
      Assoc(out, rounds[i].st.out, Written(rounds, i + 1));
    }
  }

  /** The meaning of for: the output is that of the rounds, one for each item in order, each run with
      that item bound to the name; the name is unbound afterwards. */
  lemma ForRuns(x: string, t: seq<Token>, names: Names, printer: Printer, body: seq<Step>, st: State, data: Data,
                items: seq<Value>, rounds: seq<Outcome>)
    returns (p: seq<Step>)
    requires RefArg(x) && !Quoted(x) && x !in st.forIndex && ArgValue(x, names, st, data) == Ok(List(items))
    requires Compiles(t, names + [Some(x)], printer, body) && Rounds(rounds, x, items, body, st, data)
    ensures Compiles(EztMeaning.Without(ForWord, [x], t), names, printer, p)
    ensures Run(p, st, data) == Outcome(State(st.forIndex, LeftDefines(rounds, st), st.out + Written(rounds, 0)), None)
  {
    PrepareExactly(x, names);
    var list := PrepareRef(x, names).value;
    assert list.refname == x;
    assert Interpret(ForWord, [x], names, printer) == Ok(Opens(Node(For(list))));
    p := [Block(For(list), Absent, body)];
    SimpleBlock(Directive(ForWord, [x]), t, names, printer, Node(For(list)), body);
    RunOne(p[0], st, data);
    ForEnters(list, Absent, body, st, data, Prepared, items);
    RoundsRun(x, items, 0, body, st, data, rounds, st.out);
  }

  /** A loop over anything but a list fails before it writes: over a text because it needs a
      sequence, and over a name without a value with that name's error. */
  lemma ForNeedsList(x: string, t: seq<Token>, names: Names, printer: Printer, body: seq<Step>, st: State, data: Data)
    returns (p: seq<Step>)
    requires RefArg(x) && Compiles(t, names + [if Quoted(x) then None else Some(x)], printer, body)
    requires ArgValue(x, names, st, data).Ok? ==> !ArgValue(x, names, st, data).value.List?
    ensures Compiles(EztMeaning.Without(ForWord, [x], t), names, printer, p)
    ensures var v := ArgValue(x, names, st, data);
            Run(p, st, data) ==
            Outcome(st, Some(if v.Err? then v.error else if v.value.Str? then NeedSequence else TypeError))
  {
    PrepareExactly(x, names);
    var list := PrepareRef(x, names).value;
    assert Interpret(ForWord, [x], names, printer) == Ok(Opens(Node(For(list))));
    p := [Block(For(list), Absent, body)];
    SimpleBlock(Directive(ForWord, [x]), t, names, printer, Node(For(list)), body);
    RunOne(p[0], st, data);
  }

  /** A round that fails stops the loop with its error, and what was written until then stays. */
  lemma {:induction false} ForStops(x: string, items: seq<Value>, i: nat, body: seq<Step>, st: State, data: Data,
                                    rounds: seq<Outcome>, k: nat, out: string)
    requires i <= k < |items| && k < |rounds| && x !in st.forIndex
    requires forall j :: 0 <= j < k ==> IsRound(rounds, j, x, items, body, st, data)
    requires var defines := if k == 0 then st.defines else rounds[k - 1].st.defines;
             rounds[k] == Run(body, State(st.forIndex[x := (items, k)], defines, ""), data) && rounds[k].error.Some?
    ensures var defines := if i == 0 then st.defines else rounds[i - 1].st.defines;
            var now := State(st.forIndex[x := (items, i)], defines, out);
            var o := ForLoop(x, items, i, body, now, data, Prepared);
            o.error == rounds[k].error && o.st.out == out + Written(rounds[..k + 1], i)
    decreases k - i
  {
    var defines := if i == 0 then st.defines else rounds[i - 1].st.defines;
    var now := State(st.forIndex[x := (items, i)], defines, out);
    WritesFrom(body, now, data);
    var done := rounds[..k + 1];
    assert done[i] == rounds[i];
    if i == k {
      assert Written(done, k + 1) == "";
      assert rounds[k].st.out + "" == rounds[k].st.out;
    } else {
      assert IsRound(rounds, i, x, items, body, st, data);
      var o := Run(body, now, data);
      assert o == Outcome(State(now.forIndex, rounds[i].st.defines, out + rounds[i].st.out), None);
      assert Increment(x, items, i, o.st).forIndex == st.forIndex[x := (items, i + 1)];
      ForStops(x, items, i + 1, body, st, data, rounds, k, out + rounds[i].st.out);
      Assoc(out, rounds[i].st.out, Written(done, i + 1));
    }
  }

  /** A loop that prints its name prints the items. */
  lemma ForPrints(x: string, names: Names, st: State, data: Data, texts: seq<string>) returns (p: seq<Step>)
    requires RefArg(x) && !Quoted(x) && x !in st.forIndex
    requires ArgValue(x, names, st, data) == Ok(List(Strs(texts)))
    ensures Compiles(EztMeaning.Without(ForWord, [x], [Directive(PrintWord, [x])]), names, Raw, p)
    ensures Run(p, st, data) == Outcome(st.(out := st.out + Joined(texts, 0)), None)
  {
    var inner := names + [Some(x)];
    PrepareExactly(x, inner);
    var body := [Print(Raw, [PrepareRef(x, inner).value])];
    var items := Strs(texts);
    var rounds := PrintRounds(x, inner, body, st, data, texts);
    p := ForRuns(x, [Directive(PrintWord, [x])], names, Raw, body, st, data, items, rounds);
  }

  function Strs(texts: seq<string>): (r: seq<Value>)
    ensures |r| == |texts| && forall i :: 0 <= i < |r| ==> r[i] == Str(texts[i])
  {
    seq(|texts|, i requires 0 <= i < |texts| => Str(texts[i]))
  }

  function Joined(texts: seq<string>, i: nat): string
    requires i <= |texts|
    decreases |texts| - i
  {
    if i == |texts| then "" else texts[i] + Joined(texts, i + 1)
  }

  lemma PrintRounds(x: string, inner: Names, body: seq<Step>, st: State, data: Data, texts: seq<string>)
    returns (rounds: seq<Outcome>)
    requires RefArg(x) && !Quoted(x) && Some(x) in inner
    requires PrepareRef(x, inner).Ok? && body == [Print(Raw, [PrepareRef(x, inner).value])]
    ensures Compiles([Directive(PrintWord, [x])], inner, Raw, body)
    ensures Rounds(rounds, x, Strs(texts), body, st, data)
    ensures LeftDefines(rounds, st) == st.defines && Written(rounds, 0) == Joined(texts, 0)
  {
    var items := Strs(texts);
    rounds := seq(|texts|, i requires 0 <= i < |texts| =>
      Outcome(State(st.forIndex[x := (items, i)], st.defines, texts[i]), None));
    forall i | 0 <= i < |texts|
      ensures IsRound(rounds, i, x, items, body, st, data)
    {
      PrintRound(x, inner, body, State(st.forIndex[x := (items, i)], st.defines, ""), data, items, i, texts[i]);
    }
    PrintCompiles(x, inner, body);
    WrittenJoined(rounds, texts, 0);
  }

  lemma PrintRound(x: string, inner: Names, body: seq<Step>, now: State, data: Data, items: seq<Value>, i: nat,
                   s: string)
    requires RefArg(x) && !Quoted(x) && Some(x) in inner
    requires PrepareRef(x, inner).Ok? && body == [Print(Raw, [PrepareRef(x, inner).value])]
    requires i < |items| && items[i] == Str(s) && x in now.forIndex && now.forIndex[x] == (items, i) && now.out == ""
    ensures Run(body, now, data) == Outcome(now.(out := s), None)
  {
    var parts := Split(x);
    assert parts[..|parts|] == parts && parts[|parts|..] == [];
    assert IsPath([Str(s)], []) && ReadAs(Str(s), Str(s));
    assert Leads(Str(s), [], Str(s));
    LoopValue(x, |parts|, inner, now, data, items, i, Str(s));
    var p := PrintRuns(x, inner, Raw, now, data, s);
    PrintCompiles(x, inner, body);
    assert p == body;
    assert "" + s == s;
  }

  lemma PrintCompiles(x: string, inner: Names, body: seq<Step>)
    requires RefArg(x) && PrepareRef(x, inner).Ok? && body == [Print(Raw, [PrepareRef(x, inner).value])]
    ensures Compiles([Directive(PrintWord, [x])], inner, Raw, body)
  {
    OneArg(x, inner);
    SingleToken(Directive(PrintWord, [x]), inner, Raw, body);
  }

  lemma {:induction false} WrittenJoined(rounds: seq<Outcome>, texts: seq<string>, i: nat)
    requires |rounds| == |texts| && i <= |texts| && forall k :: 0 <= k < |texts| ==> rounds[k].st.out == texts[k]
    ensures Written(rounds, i) == Joined(texts, i)
    decreases |texts| - i
  {
    if i < |texts| {
      WrittenJoined(rounds, texts, i + 1);
    }
  }

  /* ----- definitions ----- */

  /** The meaning of define: nothing is written, and the name is bound to what the section writes
      from nothing. */
  lemma DefineRuns(x: string, t: seq<Token>, names: Names, printer: Printer, body: seq<Step>, st: State, data: Data)
    returns (p: seq<Step>)
    requires Compiles(t, names, printer, body)
    ensures Compiles(EztMeaning.Without(DefineWord, [x], t), names, printer, p)
    ensures var o := Run(body, st.(out := ""), data);
            Run(p, st, data) ==
            if o.error.Some? then Outcome(o.st.(out := st.out), o.error)
            else Outcome(State(o.st.forIndex, o.st.defines[x := o.st.out], st.out), None)
  {
    var cmd := Define(Some(x));
    assert Interpret(DefineWord, [x], names, printer) == Ok(Opens(Node(cmd)));
    p := [Block(cmd, Absent, body)];
    SimpleBlock(Directive(DefineWord, [x]), t, names, printer, Node(cmd), body);
    RunOne(p[0], st, data);
  }

  /** A definition is found before the data: after a definition, printing the name writes what the
      section wrote, whatever is given under that name. */
  lemma DefinedIsPrinted(x: string, t: seq<Token>, body: seq<Step>, st: State, data: Data)
    returns (p: seq<Step>, q: seq<Step>)
    requires RefArg(x) && !Quoted(x) && '.' !in x && st.forIndex == map[]
    requires Compiles(t, [], Raw, body)
    requires var o := Run(body, st.(out := ""), data); o.error.None? && o.st.forIndex == map[]
    ensures Compiles(EztMeaning.Without(DefineWord, [x], t) + [Directive(PrintWord, [x])], [], Raw, p + q)
    ensures var o := Run(body, st.(out := ""), data);
            Run(p + q, st, data) ==
            Outcome(State(map[], o.st.defines[x := o.st.out], st.out + o.st.out), None)
  {
    var o := Run(body, st.(out := ""), data);
    p := DefineRuns(x, t, [], Raw, body, st, data);
    var st1 := State(map[], o.st.defines[x := o.st.out], st.out);
    SplitPlain(x);
    LookedUp(x, st1, data);
    assert Split(x)[1..] == [];
    q := PrintRuns(x, [], Raw, st1, data, o.st.out);
    SequenceRuns(EztMeaning.Without(DefineWord, [x], t), [Directive(PrintWord, [x])], [], Raw, p, q, st, data);
  }

  lemma {:induction false} SplitPlain(x: string)
    requires '.' !in x
    ensures Split(x) == [x]
  {
    if x != "" {
      assert x[0] in x;
      SplitPlain(x[1..]);
      assert [x[0]] + x[1..] == x;
    }
  }
}
