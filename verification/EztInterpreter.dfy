/** Running a compiled template. The references were resolved against the enclosing 'for'
    blocks when the template was compiled; the theorem is that this static choice finds the
    same objects as looking every name up in the running context. */
module EztInterpreter {
  import opened Wrappers
  import opened EztSyntax
  import opened EztCompiler
  import opened EztRender
  import Ascii

  /* ----- values and contexts ----- */

  // A template value. A number carries its str() form.
  datatype Value =
    | Str(s: string)
    | Num(shown: string)
    | Nil
    | List(items: seq<Value>)
    | Obj(attrs: map<string, Value>)

  datatype ExecError =
    | UnknownReference
    | NeedSequence
    | NotInFor       // if-index on a name that is not a running 'for'
    | LostLoop       // the entry of a 'for' is gone when the loop ends
    | OutOfRange     // the index of a 'for' is past its list
    | Reused         // a 'for' over the name of a running 'for', in the strict run
    | ValueError
    | TypeError
    | NoItems
    | NoBase

  type Loops = map<string, (seq<Value>, nat)>

  datatype State = State(forIndex: Loops, defines: map<string, string>, out: string)

  datatype Outcome = Outcome(st: State, error: Option<ExecError>)

  type Data = map<string, Value>

  /* ----- looking values up ----- */

  function Walk(ob: Value, attrs: seq<string>): Result<Value, ExecError> {
    if attrs == [] then Ok(ob)
    else if ob.Obj? && attrs[0] in ob.attrs then Walk(ob.attrs[attrs[0]], attrs[1..])
    else Err(UnknownReference)
  }

  function Plainly(ob: Value): Value {
    match ob
    case Num(shown) => Str(shown)
    case Nil => Str("")
    case _ => ob
  }

  function Outside(name: string, st: State, data: Data): Result<Value, ExecError> {
    if name in st.defines then Ok(Str(st.defines[name]))
    else if name in data then Ok(data[name])
    else Err(UnknownReference)
  }

  function LoopItem(name: string, loops: Loops): Result<Value, ExecError>
    requires name in loops
  {
    var (list, idx) := loops[name];
    if idx < |list| then Ok(list[idx]) else Err(OutOfRange)
  }

  // The lookup of a prepared reference.
  function GetPrepared(ref: ValRef, st: State, data: Data): Result<Value, ExecError> {
    match ref
    case Const(text) => Ok(Str(text))
    case Ref(_, start, rest) =>
      var ob :- if start in st.forIndex then LoopItem(start, st.forIndex) else Outside(start, st, data);
      var value :- Walk(ob, rest);
      Ok(Plainly(value))
  }

  function ActivePrefix(parts: seq<string>, loops: Loops, i: nat): (k: nat)
    requires i <= |parts|
    ensures k <= i
    ensures k > 0 ==> Join(parts[..k]) in loops
  {
    if i == 0 then 0
    else if Join(parts[..i]) in loops then i
    else ActivePrefix(parts, loops, i - 1)
  }

  // The lookup of a name in the running context: the longest prefix that names a running
  // 'for' is its current item, and otherwise the first part is a define or a data member.
  function GetByName(ref: ValRef, st: State, data: Data): Result<Value, ExecError> {
    match ref
    case Const(text) => Ok(Str(text))
    case Ref(refname, _, _) =>
      var parts := Split(refname);
      var k := ActivePrefix(parts, st.forIndex, |parts|);
      var ob :- if k > 0 then LoopItem(Join(parts[..k]), st.forIndex) else Outside(parts[0], st, data);
      var value :- Walk(ob, if k > 0 then parts[k..] else parts[1..]);
      Ok(Plainly(value))
  }

  // How a run looks names up: as they were prepared by the compiler, or in the running context.
  // A strict run is one by name that stops at a 'for' over the name of a running 'for'.
  datatype Mode = Prepared | ByName | Strict

  function Get(ref: ValRef, st: State, data: Data, mode: Mode): Result<Value, ExecError> {
    match mode
    case Prepared => GetPrepared(ref, st, data)
    case _ => GetByName(ref, st, data)
  }

  function GetAll(refs: seq<ValRef>, st: State, data: Data, mode: Mode): Result<seq<Value>, ExecError> {
    if refs == [] then Ok([])
    else
      var first :- Get(refs[0], st, data, mode);
      var others :- GetAll(refs[1..], st, data, mode);
      Ok([first] + others)
  }

  /* ----- printing ----- */

  function EscapeChar(c: char): string {
    if c == '&' then "&amp;" else if c == '<' then "&lt;" else if c == '>' then "&gt;" else [c]
  }

  function Escape(s: string): string {
    if s == "" then "" else EscapeChar(s[0]) + Escape(s[1..])
  }

  function Shown(p: Printer, s: string): string {
    if p == Raw then s else Escape(s)
  }

  predicate IsDigit(c: char) {
    '0' <= c <= '9'
  }

  function Digits(s: string): (n: nat)
    ensures n <= |s|
  {
    if s != "" && IsDigit(s[0]) then 1 + Digits(s[1..]) else 0
  }

  function NatOf(s: string): nat
    requires forall c :: c in s ==> IsDigit(c)
  {
    if s == "" then 0
    else
      assert IsDigit(s[|s| - 1]);
      10 * NatOf(s[..|s| - 1]) + (s[|s| - 1] as int - '0' as int)
  }

  lemma DigitsAreDigits(s: string)
    ensures forall c :: c in s[..Digits(s)] ==> IsDigit(c)
  {
    if s != "" && IsDigit(s[0]) {
      DigitsAreDigits(s[1..]);
      assert s[..Digits(s)] == [s[0]] + s[1..][..Digits(s[1..])];
    }
  }

  // Replaces %N by the N-th argument and %% by a percent sign; yields what is written and
  // the error that stops the writing, if any.
  function Substitute(s: string, args: seq<Value>, p: Printer): (string, Option<ExecError>)
    decreases |s|
  {
    if s == "" then ("", None)
    else if s[0] == '%' && |s| > 1 && s[1] == '%' then
      var rest := Substitute(s[2..], args, p);
      (Shown(p, "%") + rest.0, rest.1)
    else if s[0] == '%' && |s| > 1 && IsDigit(s[1]) then
      var n := Digits(s[1..]);
      DigitsAreDigits(s[1..]);
      var idx := NatOf(s[1..][..n]);
      var piece := if idx < |args| then args[idx] else Str("<undef>");
      if !piece.Str? then ("", Some(TypeError))
      else
        var rest := Substitute(s[1 + n..], args, p);
        (Shown(p, piece.s) + rest.0, rest.1)
    else
      var rest := Substitute(s[1..], args, p);
      (Shown(p, [s[0]]) + rest.0, rest.1)
  }

  function PrintValues(values: seq<Value>, p: Printer): (string, Option<ExecError>) {
    if values == [] then ("", Some(NoItems))
    else if !values[0].Str? then ("", Some(TypeError))
    else if |values| == 1 then (Shown(p, values[0].s), None)
    else Substitute(values[0].s, values[1..], p)
  }

  /* ----- conditions ----- */

  function Truthy(v: Value): bool {
    match v
    case Str(s) => s != ""
    case List(items) => items != []
    case _ => true
  }

  function AnyTruthy(refs: seq<ValRef>, st: State, data: Data, mode: Mode): Result<bool, ExecError> {
    if refs == [] then Ok(false)
    else
      var v :- Get(refs[0], st, data, mode);
      if Truthy(v) then Ok(true) else AnyTruthy(refs[1..], st, data, mode)
  }

  function IntOf(s: string): Option<int> {
    if s != "" && Digits(s) == |s| then
      DigitsAreDigits(s);
      assert s[..|s|] == s;
      Some(NatOf(s))
    else if |s| > 1 && s[0] == '-' && Digits(s[1..]) == |s| - 1 then
      DigitsAreDigits(s[1..]);
      assert s[1..][..|s| - 1] == s[1..];
      var n: int := 0 - NatOf(s[1..]);
      Some(n)
    else None
  }

  function IndexTest(ref: ValRef, value: Option<string>, st: State): Result<bool, ExecError> {
    if value.None? then Err(ValueError)
    else if ref.Const? || ref.refname !in st.forIndex then Err(NotInFor)
    else
      var (list, idx) := st.forIndex[ref.refname];
      var v := value.value;
      if v == "even" then Ok(idx % 2 == 0)
      else if v == "odd" then Ok(idx % 2 == 1)
      else if v == "first" then Ok(idx == 0)
      else if v == "last" then Ok(idx == |list| - 1)
      else
        match IntOf(v)
        case None => Err(ValueError)
        case Some(n) => Ok(idx == n)
  }

  function IsTest(left: ValRef, right: ValRef, st: State, data: Data, mode: Mode): Result<bool, ExecError> {
    var r :- Get(right, st, data, mode);
    var l :- Get(left, st, data, mode);
    if l.Str? && r.Str? then Ok(Ascii.LowerCase(l.s) == Ascii.LowerCase(r.s)) else Err(TypeError)
  }

  /* ----- running steps ----- */

  function Condition(cmd: Command, st: State, data: Data, mode: Mode): Result<bool, ExecError>
    requires cmd.IfAny? || cmd.IfIndex? || cmd.Is?
  {
    match cmd
    case IfAny(refs) => AnyTruthy(refs, st, data, mode)
    case IfIndex(ref, value) => IndexTest(ref, value, st)
    case Is(left, right) => IsTest(left, right, st, data, mode)
  }

  function Exec(steps: seq<Step>, st: State, data: Data, mode: Mode): Outcome
    decreases steps, 0, 0
  {
    if steps == [] then Outcome(st, None)
    else
      var o := ExecStep(steps[0], st, data, mode);
      if o.error.Some? then o else Exec(steps[1..], o.st, data, mode)
  }

  function ExecStep(step: Step, st: State, data: Data, mode: Mode): Outcome
    decreases step, 1, 0
  {
    match step
    case Text(s) => Outcome(st.(out := st.out + s), None)
    case Print(p, refs) =>
      (match GetAll(refs, st, data, mode)
       case Err(e) => Outcome(st, Some(e))
       case Ok(values) =>
         var shown := PrintValues(values, p);
         Outcome(st.(out := st.out + shown.0), shown.1))
    case Include(file) =>
      (match Get(file, st, data, mode)
       case Err(e) => Outcome(st, Some(e))
       case Ok(_) => Outcome(st, Some(NoBase)))
    case Block(For(list), _, body) =>
      (match Get(list, st, data, mode)
       case Err(e) => Outcome(st, Some(e))
       case Ok(Str(_)) => Outcome(st, Some(NeedSequence))
       case Ok(List(items)) =>
         if list.Const? then Outcome(st, Some(NeedSequence))
         else if mode == Strict && list.refname in st.forIndex then Outcome(st, Some(Reused))
         else ForLoop(list.refname, items, 0, body, Begin(list.refname, items, st), data, mode)
       case Ok(_) => Outcome(st, Some(TypeError)))
    case Block(Define(name), _, body) =>
      if name.None? then Outcome(st, Some(ValueError))
      else
        var o := Exec(body, st.(out := ""), data, mode);
        if o.error.Some? then Outcome(o.st.(out := st.out), o.error)
        else Outcome(State(o.st.forIndex, o.st.defines[name.value := o.st.out], st.out), None)
    case Block(cmd, onTrue, body) =>
      match Condition(cmd, st, data, mode)
      case Err(e) => Outcome(st, Some(e))
      case Ok(value) =>
        match onTrue
        case Absent => if value then Exec(body, st, data, mode) else Outcome(st, None)
        case Present(steps) => if value then Exec(steps, st, data, mode) else Exec(body, st, data, mode)
  }

  function Begin(name: string, items: seq<Value>, st: State): State {
    st.(forIndex := st.forIndex[name := (items, 0)])
  }

  // The iterations of a 'for' from the i-th on. The increment is seen only while the
  // entry is still there: an inner 'for' over the same name has deleted it.
  function ForLoop(name: string, items: seq<Value>, i: nat, body: seq<Step>, st: State, data: Data, mode: Mode): Outcome
    requires i <= |items|
    decreases body, 1, |items| - i
  {
    if i == |items| then
      if name in st.forIndex then Outcome(st.(forIndex := st.forIndex - {name}), None)
      else Outcome(st, Some(LostLoop))
    else
      var o := Exec(body, st, data, mode);
      if o.error.Some? then o
      else ForLoop(name, items, i + 1, body, Increment(name, items, i, o.st), data, mode)
  }

  function Increment(name: string, items: seq<Value>, i: nat, st: State): State {
    if name in st.forIndex then st.(forIndex := st.forIndex[name := (items, i + 1)]) else st
  }

  /* ----- static resolution agrees with run-time lookup ----- */

  // No 'for' is nested in a 'for' over the same name.
  predicate StepDistinct(step: Step, names: Names)
    decreases step, 1
  {
    step.Block? ==>
      var inner := Enter(Node(step.cmd), names);
      && (step.cmd.For? && step.cmd.list.Ref? ==> Some(step.cmd.list.refname) !in names)
      && (step.onTrue.Present? ==> Distinct(step.onTrue.steps, inner))
      && Distinct(step.body, inner)
  }

  predicate Distinct(steps: seq<Step>, names: Names)
    decreases steps, 0
  {
    steps == [] || (StepDistinct(steps[0], names) && Distinct(steps[1..], names))
  }

  // The running loops are exactly the enclosing ones, each with its index in its list.
  ghost predicate Running(loops: Loops, names: Names) {
    && (forall n :: n in loops <==> Some(n) in names)
    && (forall n :: n in loops ==> loops[n].1 < |loops[n].0|)
  }

  lemma SamePrefix(parts: seq<string>, loops: Loops, names: Names, i: nat)
    requires i <= |parts|
    requires forall n :: n in loops <==> Some(n) in names
    ensures ActivePrefix(parts, loops, i) == ForPrefix(parts, names, i)
  {
  }

  // The errors that have nothing to do with the bookkeeping of loops.
  predicate Ordinary<T>(r: Result<T, ExecError>) {
    r.Err? ==> r.error != LostLoop && r.error != OutOfRange
  }

  lemma SameValue(ref: ValRef, st: State, data: Data, names: Names)
    requires RefOk(ref, names) && Running(st.forIndex, names)
    ensures GetPrepared(ref, st, data) == GetByName(ref, st, data)
    ensures Ordinary(GetByName(ref, st, data))
  {
    if ref.Ref? {
      var parts := Split(ref.refname);
      SamePrefix(parts, st.forIndex, names, |parts|);
      assert Join(parts[..1]) == parts[0];
      var k := ForPrefix(parts, names, |parts|);
      if k == 0 {
        assert Some(Join(parts[..1])) !in names;
      }
      var ob := if k > 0 then LoopItem(Join(parts[..k]), st.forIndex) else Outside(parts[0], st, data);
      if ob.Ok? {
        WalkErrors(ob.value, if k > 0 then parts[k..] else parts[1..]);
      }
    }
  }

  lemma WalkErrors(ob: Value, attrs: seq<string>)
    ensures Walk(ob, attrs).Err? ==> Walk(ob, attrs).error == UnknownReference
  {
  }

  lemma SameValues(refs: seq<ValRef>, st: State, data: Data, names: Names)
    requires Running(st.forIndex, names)
    requires forall r :: r in refs ==> RefOk(r, names)
    ensures GetAll(refs, st, data, Prepared) == GetAll(refs, st, data, ByName)
            && Ordinary(GetAll(refs, st, data, ByName))
    ensures AnyTruthy(refs, st, data, Prepared) == AnyTruthy(refs, st, data, ByName)
            && Ordinary(AnyTruthy(refs, st, data, ByName))
  {
    if refs != [] {
      assert RefOk(refs[0], names);
      SameValue(refs[0], st, data, names);
      SameValues(refs[1..], st, data, names);
    }
  }

  // What holds of a run that started with the given loops.
  ghost predicate Sound(o: Outcome, loops: Loops) {
    && (o.error.None? ==> o.st.forIndex == loops)
    && o.error != Some(LostLoop)
    && o.error != Some(OutOfRange)
  }

  lemma SubstituteErrors(s: string, args: seq<Value>, p: Printer)
    ensures Substitute(s, args, p).1 == None || Substitute(s, args, p).1 == Some(TypeError)
    decreases |s|
  {
  }

  lemma PrintAgrees(p: Printer, refs: seq<ValRef>, st: State, data: Data, names: Names)
    requires StepOk(Print(p, refs), names) && Running(st.forIndex, names)
    ensures ExecStep(Print(p, refs), st, data, Prepared) == ExecStep(Print(p, refs), st, data, ByName)
    ensures Sound(ExecStep(Print(p, refs), st, data, Prepared), st.forIndex)
  {
    SameValues(refs, st, data, names);
    var values := GetAll(refs, st, data, Prepared);
    if values.Ok? && |values.value| > 1 && values.value[0].Str? {
      SubstituteErrors(values.value[0].s, values.value[1..], p);
    }
  }

  lemma {:induction false} StepAgrees(step: Step, st: State, data: Data, names: Names)
    requires StepOk(step, names) && StepDistinct(step, names) && Running(st.forIndex, names)
    ensures ExecStep(step, st, data, Prepared) == ExecStep(step, st, data, ByName)
    ensures Sound(ExecStep(step, st, data, Prepared), st.forIndex)
    decreases step, 1, 0
  {
    match step
    case Text(_) =>
    case Print(p, refs) =>
      PrintAgrees(p, refs, st, data, names);
    case Include(file) =>
      SameValue(file, st, data, names);
    case Block(For(list), _, body) =>
      ForAgrees(list, step.onTrue, body, st, data, names);
    case Block(Define(name), _, body) =>
      StepsAgree(body, st.(out := ""), data, names);
    case Block(cmd, onTrue, body) =>
      StepsAgree(body, st, data, names);
      if onTrue.Present? {
        StepsAgree(onTrue.steps, st, data, names);
      }
      IfAgrees(cmd, onTrue, body, st, data, names);
  }

  ghost predicate Agrees(steps: seq<Step>, st: State, data: Data) {
    && Exec(steps, st, data, Prepared) == Exec(steps, st, data, ByName)
    && Sound(Exec(steps, st, data, Prepared), st.forIndex)
  }

  lemma IfAgrees(cmd: Command, onTrue: Section, body: seq<Step>, st: State, data: Data, names: Names)
    requires cmd.IfAny? || cmd.IfIndex? || cmd.Is?
    requires CommandOk(cmd, names) && Running(st.forIndex, names)
    requires Agrees(body, st, data) && (onTrue.Present? ==> Agrees(onTrue.steps, st, data))
    ensures var step := Block(cmd, onTrue, body);
            && ExecStep(step, st, data, Prepared) == ExecStep(step, st, data, ByName)
            && Sound(ExecStep(step, st, data, Prepared), st.forIndex)
  {
    ConditionAgrees(cmd, st, data, names);
  }

  lemma {:induction false} ForAgrees(list: ValRef, onTrue: Section, body: seq<Step>, st: State, data: Data,
                                     names: Names)
    requires var step := Block(For(list), onTrue, body);
             StepOk(step, names) && StepDistinct(step, names) && Running(st.forIndex, names)
    ensures var step := Block(For(list), onTrue, body);
            && ExecStep(step, st, data, Prepared) == ExecStep(step, st, data, ByName)
            && Sound(ExecStep(step, st, data, Prepared), st.forIndex)
    decreases body, 3, 0
  {
    SameValue(list, st, data, names);
    var v := GetPrepared(list, st, data);
    if v.Ok? && v.value.List? && list.Ref? {
      ForEnters(list, onTrue, body, st, data, Prepared, v.value.items);
      ForEnters(list, onTrue, body, st, data, ByName, v.value.items);
      RoundsAgree(list.refname, v.value.items, body, st, data, names);
    }
  }

  lemma {:induction false} ForEnters(list: ValRef, onTrue: Section, body: seq<Step>, st: State, data: Data, mode: Mode,
                                     items: seq<Value>)
    requires list.Ref? && Get(list, st, data, mode) == Ok(List(items)) && list.refname !in st.forIndex
    ensures ExecStep(Block(For(list), onTrue, body), st, data, mode)
         == ForLoop(list.refname, items, 0, body, Begin(list.refname, items, st), data, mode)
  {
  }

  // All rounds of a loop, from its beginning.
  lemma {:induction false} RoundsAgree(name: string, items: seq<Value>, body: seq<Step>, st: State, data: Data,
                                       names: Names)
    requires Some(name) !in names && Running(st.forIndex, names)
    requires var inner := names + [Some(name)]; StepsOk(body, inner) && Distinct(body, inner)
    ensures var begun := Begin(name, items, st);
            && ForLoop(name, items, 0, body, begun, data, Prepared)
               == ForLoop(name, items, 0, body, begun, data, ByName)
            && Sound(ForLoop(name, items, 0, body, begun, data, Prepared), st.forIndex)
    decreases body, 2, 0
  {
    if items == [] {
      assert Begin(name, items, st).forIndex - {name} == st.forIndex;
    } else {
      LoopAgrees(name, items, 0, body, Begin(name, items, st), data, names, st.forIndex);
    }
  }

  lemma ConditionAgrees(cmd: Command, st: State, data: Data, names: Names)
    requires cmd.IfAny? || cmd.IfIndex? || cmd.Is?
    requires CommandOk(cmd, names) && Running(st.forIndex, names)
    ensures Condition(cmd, st, data, Prepared) == Condition(cmd, st, data, ByName)
    ensures Ordinary(Condition(cmd, st, data, Prepared))
  {
    match cmd
    case IfAny(refs) => SameValues(refs, st, data, names);
    case IfIndex(_, _) =>
    case Is(left, right) =>
      SameValue(left, st, data, names);
      SameValue(right, st, data, names);
  }

  lemma {:induction false} StepsAgree(steps: seq<Step>, st: State, data: Data, names: Names)
    requires StepsOk(steps, names) && Distinct(steps, names) && Running(st.forIndex, names)
    ensures Agrees(steps, st, data)
    decreases steps, 0, 0
  {
    if steps != [] {
      StepAgrees(steps[0], st, data, names);
      var o := ExecStep(steps[0], st, data, Prepared);
      if o.error.None? {
        StepsAgree(steps[1..], o.st, data, names);
      }
    }
  }

  lemma {:induction false} LastRound(name: string, items: seq<Value>, body: seq<Step>, st: State, data: Data,
                                     mode: Mode,
                                     outer: Loops)
    requires name !in outer && st.forIndex == outer[name := (items, |items|)]
    ensures var o := ForLoop(name, items, |items|, body, st, data, Prepared);
            o == ForLoop(name, items, |items|, body, st, data, mode) && o == Outcome(st.(forIndex := outer), None)
  {
    assert st.forIndex - {name} == outer;
  }

  // The i-th iteration runs with the outer loops and this one at index i.
  lemma {:induction false} LoopAgrees(name: string, items: seq<Value>, i: nat, body: seq<Step>, st: State, data: Data,
                                      names: Names, outer: Loops)
    requires i < |items|
    requires Some(name) !in names && Running(outer, names)
    requires st.forIndex == outer[name := (items, i)]
    requires var inner := names + [Some(name)]; StepsOk(body, inner) && Distinct(body, inner)
    ensures ForLoop(name, items, i, body, st, data, Prepared) == ForLoop(name, items, i, body, st, data, ByName)
    ensures Sound(ForLoop(name, items, i, body, st, data, Prepared), outer)
    decreases body, 1, |items| - i
  {
    StepsAgree(body, st, data, names + [Some(name)]);
    var o := Exec(body, st, data, Prepared);
    if o.error.None? {
      var st' := Increment(name, items, i, o.st);
      assert st'.forIndex == outer[name := (items, i + 1)];
      if i + 1 < |items| {
        LoopAgrees(name, items, i + 1, body, st', data, names, outer);
      } else {
        LastRound(name, items, body, st', data, ByName, outer);
      }
    }
  }

  /** Compile, then run: for every template that compiles and nests no 'for' in a 'for' over
      the same name, and for every data, the run with references resolved at compile time is
      the run that looks every name up as it goes, errors included; no loop is lost, and the
      loop table ends empty. */
  lemma DistinctRunAgrees(toks: seq<Token>, base: Printer, data: Data)
    requires ParseTemplate(toks, base).Ok?
    requires Distinct(ParseTemplate(toks, base).value, [])
    ensures var program := ParseTemplate(toks, base).value;
            var start := State(map[], map[], "");
            && Exec(program, start, data, Prepared) == Exec(program, start, data, ByName)
            && Sound(Exec(program, start, data, Prepared), map[])
  {
    CompileRenderCompile(toks, base);
    StepsAgree(ParseTemplate(toks, base).value, State(map[], map[], ""), data, []);
  }

  /* ----- the interpreter ----- */

  // Where a run writes: the caller's file object, or the buffer of a 'define'.
  class Writer {
    var text: string

    constructor ()
      ensures text == ""
    {
      text := "";
    }
  }

  class Context {
    const data: Data
    var forIndex: Loops
    var defines: map<string, string>

    constructor (data: Data)
      ensures this.data == data && forIndex == map[] && defines == map[]
    {
      this.data := data;
      forIndex, defines := map[], map[];
    }

    ghost function View(fp: Writer): State
      reads this, fp
    {
      State(forIndex, defines, fp.text)
    }

    method Execute(steps: seq<Step>, fp: Writer) returns (error: Option<ExecError>)
      modifies this, fp
      ensures Outcome(View(fp), error) == Exec(steps, old(View(fp)), data, Prepared)
      decreases steps, 0, 0
    {
      var i := 0;
      ghost var start := View(fp);
      while i < |steps|
        invariant 0 <= i <= |steps|
        invariant Exec(steps[i..], View(fp), data, Prepared) == Exec(steps, start, data, Prepared)
      {
        assert steps[i..][0] == steps[i] && steps[i..][1..] == steps[i + 1..];
        error := ExecuteStep(steps[i], fp);
        if error.Some? {
          return;
        }
        i := i + 1;
      }
      return None;
    }

    method ExecuteStep(step: Step, fp: Writer) returns (error: Option<ExecError>)
      modifies this, fp
      ensures Outcome(View(fp), error) == ExecStep(step, old(View(fp)), data, Prepared)
      decreases step, 1, 0
    {
      match step
      case Text(s) =>
        fp.text := fp.text + s;
        return None;
      case Print(p, refs) =>
        var values := GetAll(refs, State(forIndex, defines, ""), data, Prepared);
        GetAllIgnoresOutput(refs, View(fp), "", data);
        if values.Err? {
          return Some(values.error);
        }
        var shown := PrintValues(values.value, p);
        fp.text := fp.text + shown.0;
        return shown.1;
      case Include(file) =>
        var value := GetPrepared(file, State(forIndex, defines, ""), data);
        return if value.Err? then Some(value.error) else Some(NoBase);
      case Block(For(list), _, body) =>
        error := CmdFor(list, body, fp);
      case Block(Define(name), _, body) =>
        error := CmdDefine(name, body, fp);
      case Block(cmd, onTrue, body) =>
        var value := Condition(cmd, State(forIndex, defines, ""), data, Prepared);
        ConditionIgnoresOutput(cmd, View(fp), "", data);
        if value.Err? {
          return Some(value.error);
        }
        match onTrue
        case Absent =>
          if !value.value {
            return None;
          }
          error := Execute(body, fp);
        case Present(steps) =>
          if value.value {
            error := Execute(steps, fp);
          } else {
            error := Execute(body, fp);
          }
    }

    method CmdFor(list: ValRef, body: seq<Step>, fp: Writer) returns (error: Option<ExecError>)
      modifies this, fp
      ensures Outcome(View(fp), error)
           == ExecStep(Block(For(list), Absent, body), old(View(fp)), data, Prepared)
      decreases body, 2, 0
    {
      var value := GetPrepared(list, State(forIndex, defines, ""), data);
      if value.Err? {
        return Some(value.error);
      }
      if value.value.Str? || (value.value.List? && list.Const?) {
        return Some(NeedSequence);
      }
      if !value.value.List? {
        return Some(TypeError);
      }
      forIndex := forIndex[list.refname := (value.value.items, 0)];
      error := Rounds(list.refname, value.value.items, body, fp);
    }

    method Rounds(name: string, items: seq<Value>, body: seq<Step>, fp: Writer) returns (error: Option<ExecError>)
      modifies this, fp
      ensures Outcome(View(fp), error) == ForLoop(name, items, 0, body, old(View(fp)), data, Prepared)
      decreases body, 1, 0
    {
      ghost var begun := View(fp);
      var i := 0;
      while i < |items|
        invariant 0 <= i <= |items|
        invariant ForLoop(name, items, i, body, View(fp), data, Prepared)
               == ForLoop(name, items, 0, body, begun, data, Prepared)
      {
        error := Execute(body, fp);
        if error.Some? {
          return;
        }
        if name in forIndex {
          forIndex := forIndex[name := (items, i + 1)];
        }
        i := i + 1;
      }
      if name !in forIndex {
        return Some(LostLoop);
      }
      forIndex := forIndex - {name};
      return None;
    }

    method CmdDefine(name: Option<string>, body: seq<Step>, fp: Writer) returns (error: Option<ExecError>)
      modifies this, fp
      ensures Outcome(View(fp), error)
           == ExecStep(Block(Define(name), Absent, body), old(View(fp)), data, Prepared)
      decreases body, 2, 0
    {
      if name.None? {
        return Some(ValueError);
      }
      var valfp := new Writer();
      error := Execute(body, valfp);
      if error.None? {
        defines := defines[name.value := valfp.text];
      }
    }
  }

  // Looking values up does not depend on what has been written.
  lemma GetAllIgnoresOutput(refs: seq<ValRef>, st: State, out: string, data: Data)
    ensures GetAll(refs, st.(out := out), data, Prepared) == GetAll(refs, st, data, Prepared)
    ensures AnyTruthy(refs, st.(out := out), data, Prepared) == AnyTruthy(refs, st, data, Prepared)
  {
  }

  lemma ConditionIgnoresOutput(cmd: Command, st: State, out: string, data: Data)
    requires cmd.IfAny? || cmd.IfIndex? || cmd.Is?
    ensures Condition(cmd, st.(out := out), data, Prepared) == Condition(cmd, st, data, Prepared)
  {
    if cmd.IfAny? {
      GetAllIgnoresOutput(cmd.refs, st, out, data);
    }
  }
}
