/** The stack compiler of the EZT template engine, and a recursive-descent parser
    of the same block grammar that it is proved equal to. */
module EztCompiler {
  import opened Wrappers
  import opened EztSyntax

  /* ----- directives ----- */

  predicate IsElse(t: Token) {
    t.Directive? && t.word == ElseWord
  }

  predicate IsEnd(t: Token) {
    t.Directive? && t.word == EndWord
  }

  // An open block: a command that will become a node, or a choice of printer.
  datatype Opening = Node(cmd: Command) | FormatBlock(printer: Printer)

  // What a directive other than 'else' and 'end' means.
  datatype Meaning = Plain(step: Step) | Opens(opening: Opening)

  function BlockArgs(word: Word): nat {
    if word == IfIndexWord || word == IsWord then 2 else 1
  }

  function PrinterNamed(name: string): Option<Printer> {
    if name == "raw" then Some(Raw)
    else if name == "html" then Some(Html)
    else if name == "xml" then Some(Xml)
    else None
  }

  function OpenBlock(word: Word, args: seq<string>, names: Names): Result<Opening, ParseError> {
    if |args| > BlockArgs(word) then Err(ArgCount)
    else if word == DefineWord then Ok(Node(Define(if |args| == 1 then Some(args[0]) else None)))
    else if |args| == 0 then Err(IndexError)
    else
      var ref :- PrepareRef(args[0], names);
      if word == IsWord then
        if |args| < 2 then Err(IndexError)
        else
          var right :- PrepareRef(args[1], names);
          Ok(Node(Is(ref, right)))
      else if word == ForWord then Ok(Node(For(ref)))
      else if word == FormatWord then
        if ref.Ref? then Err(BadFormatConstant)
        else
          match PrinterNamed(ref.text)
          case None => Err(UnknownFormatConstant)
          case Some(p) => Ok(FormatBlock(p))
      else Ok(Node(IfIndex(ref, if |args| == 2 then Some(args[1]) else None)))
  }

  function Interpret(word: Word, args: seq<string>, names: Names, printer: Printer): Result<Meaning, ParseError> {
    match word
    case IncludeWord =>
      if args == [] || args[0] == "" then Err(IndexError)
      else if args[0][0] == '"' then
        var _ :- PrepareAll(args[1..], names);
        Err(BaseUnavailable)
      else if |args| != 1 then Err(ArgCount)
      else
        var ref :- PrepareRef(args[0], names);
        Ok(Plain(Include(ref)))
    case IfAnyWord =>
      var refs :- PrepareAll(args, names);
      Ok(Opens(Node(IfAny(refs))))
    case PrintWord =>
      var refs :- PrepareAll(args, names);
      Ok(Plain(Print(printer, refs)))
    case _ =>
      var opening :- OpenBlock(word, args, names);
      Ok(Opens(opening))
  }

  function Enter(opening: Opening, names: Names): Names {
    if opening.Node? && opening.cmd.For? then names + [RefName(opening.cmd.list)] else names
  }

  function EnterPrinter(opening: Opening, printer: Printer): Printer {
    if opening.FormatBlock? then opening.printer else printer
  }

  // What a finished block leaves in the program. A format block leaves the steps of
  // its last section and nothing else.
  function Close(opening: Opening, onTrue: Section, body: seq<Step>): seq<Step> {
    match opening
    case Node(cmd) => [Block(cmd, onTrue, body)]
    case FormatBlock(_) => body
  }

  /* ----- the reference parser ----- */

  // The steps up to the end of the input or to an 'else' or 'end' of an outer block.
  function ParseSection(toks: seq<Token>, names: Names, printer: Printer)
    : (r: Result<(seq<Step>, seq<Token>), ParseError>)
    ensures r.Ok? ==> |r.value.1| <= |toks|
    ensures r.Ok? ==> r.value.1 == [] || IsElse(r.value.1[0]) || IsEnd(r.value.1[0])
    decreases |toks|, 0
  {
    if toks == [] || IsElse(toks[0]) || IsEnd(toks[0]) then Ok(([], toks))
    else
      var item :- ParseItem(toks[0], toks[1..], names, printer);
      var others :- ParseSection(item.1, names, printer);
      Ok((item.0 + others.0, others.1))
  }

  function ParseItem(tok: Token, rest: seq<Token>, names: Names, printer: Printer)
    : (r: Result<(seq<Step>, seq<Token>), ParseError>)
    ensures r.Ok? ==> |r.value.1| <= |rest|
    decreases |rest|, 2
  {
    match tok
    case TextToken(s) => Ok((if s == "" then [] else [Text(s)], rest))
    case BracketToken => Ok(([Text("[")], rest))
    case Directive(word, args) =>
      var meaning :- Interpret(word, args, names, printer);
      match meaning
      case Plain(step) => Ok(([step], rest))
      case Opens(opening) =>
        var block :- ParseBlock(rest, Absent, [], Enter(opening, names), EnterPrinter(opening, printer));
        Ok((Close(opening, block.0, block.1), block.2))
  }

  // The sections of an open block, up to and including its 'end'. Each 'else' replaces
  // the section kept so far by the one it ends: 'acc' is what that section already holds.
  function ParseBlock(toks: seq<Token>, onTrue: Section, acc: seq<Step>, names: Names, printer: Printer)
    : (r: Result<(Section, seq<Step>, seq<Token>), ParseError>)
    ensures r.Ok? ==> |r.value.2| < |toks|
    decreases |toks|, 1
  {
    var section :- ParseSection(toks, names, printer);
    var rest := section.1;
    if rest == [] then Err(UnclosedBlocks)
    else if rest[0].args != [] then Err(ArgCount)
    else if IsElse(rest[0]) then ParseBlock(rest[1..], Present(acc + section.0), [], names, printer)
    else Ok((onTrue, acc + section.0, rest[1..]))
  }

  function ParseTemplate(toks: seq<Token>, printer: Printer): Result<seq<Step>, ParseError> {
    var section :- ParseSection(toks, [], printer);
    AtTop(section.0, section.1)
  }

  // Outside every block an 'end' is unmatched and an 'else' finds no block to change.
  function AtTop(steps: seq<Step>, rest: seq<Token>): Result<seq<Step>, ParseError>
    requires rest == [] || IsElse(rest[0]) || IsEnd(rest[0])
  {
    if rest == [] then Ok(steps)
    else if rest[0].args != [] then Err(ArgCount)
    else if IsElse(rest[0]) then Err(IndexError)
    else Err(UnmatchedEnd)
  }

  /* ----- the stack machine ----- */

  // An open block: where its current section starts in the program, and the section
  // that an 'else' has set aside.
  datatype Frame = Frame(opening: Opening, idx: nat, section: Section)

  datatype Machine = Machine(program: seq<Step>, stack: seq<Frame>, names: Names, printers: seq<Printer>)

  function NamesOf(stack: seq<Frame>): Names {
    if stack == [] then []
    else Enter(stack[|stack| - 1].opening, NamesOf(stack[..|stack| - 1]))
  }

  function PrintersOf(base: Printer, stack: seq<Frame>): (ps: seq<Printer>)
    ensures |ps| >= 1
  {
    if stack == [] then [base]
    else
      var outer := PrintersOf(base, stack[..|stack| - 1]);
      var opening := stack[|stack| - 1].opening;
      if opening.FormatBlock? then outer + [opening.printer] else outer
  }

  // 'for_names' and 'printers' mirror the open blocks; the stacked positions are
  // ordered and lie within the program.
  ghost predicate Valid(m: Machine, base: Printer) {
    && m.names == NamesOf(m.stack)
    && m.printers == PrintersOf(base, m.stack)
    && Positions(m.stack, |m.program|)
  }

  predicate Positions(stack: seq<Frame>, n: nat) {
    && (forall i :: 0 <= i < |stack| ==> stack[i].idx <= n)
    && (forall i, j :: 0 <= i < j < |stack| ==> stack[i].idx <= stack[j].idx)
  }

  // The mirrors of a stack with one more block.
  lemma MirrorsGrow(stack: seq<Frame>, top: Frame, base: Printer)
    ensures NamesOf(stack + [top]) == Enter(top.opening, NamesOf(stack))
    ensures PrintersOf(base, stack + [top]) ==
            if top.opening.FormatBlock? then PrintersOf(base, stack) + [top.opening.printer]
              else PrintersOf(base, stack)
  {
    assert (stack + [top])[..|stack|] == stack;
  }

  // The stack as its innermost block and the others.
  lemma TopOf(m: Machine, base: Printer)
    requires Valid(m, base) && m.stack != []
    ensures var n := |m.stack| - 1;
            var outer, top := m.stack[..n], m.stack[n];
            && m.stack == outer + [top]
            && m.names == Enter(top.opening, NamesOf(outer))
            && m.printers == (if top.opening.FormatBlock? then PrintersOf(base, outer) + [top.opening.printer]
                              else PrintersOf(base, outer))
            && top.idx <= |m.program| && Positions(outer, top.idx)
  {
    var n := |m.stack| - 1;
    assert m.stack == m.stack[..n] + [m.stack[n]];
    MirrorsGrow(m.stack[..n], m.stack[n], base);
  }

  function Current(m: Machine): Printer
    requires m.printers != []
  {
    m.printers[|m.printers| - 1]
  }

  /* ----- one turn of the parsing loop ----- */

  predicate IsFor(opening: Opening) {
    opening.Node? && opening.cmd.For?
  }

  // What a turn needs: there is a printer, and the innermost block lies within the program and
  // has its name and its printer.
  predicate Usable(m: Machine) {
    && m.printers != []
    && (m.stack != [] ==>
          var top := m.stack[|m.stack| - 1];
          top.idx <= |m.program| && (IsFor(top.opening) ==> m.names != []))
  }

  function Aside(m: Machine): Machine
    requires Usable(m) && m.stack != []
  {
    var n := |m.stack| - 1;
    var top := m.stack[n];
    m.(program := m.program[..top.idx], stack := m.stack[n := top.(section := Present(m.program[top.idx..]))])
  }

  function Pushed(m: Machine, opening: Opening): Machine {
    Machine(m.program, m.stack + [Frame(opening, |m.program|, Absent)], Enter(opening, m.names),
            if opening.FormatBlock? then m.printers + [opening.printer] else m.printers)
  }

  // Closes the innermost block with the given sections.
  function Popped(m: Machine, onTrue: Section, body: seq<Step>): Machine
    requires Usable(m) && m.stack != []
  {
    var n := |m.stack| - 1;
    var top := m.stack[n];
    Machine(m.program[..top.idx] + Close(top.opening, onTrue, body),
            m.stack[..n],
            if IsFor(top.opening) then m.names[..|m.names| - 1] else m.names,
            if top.opening.FormatBlock? then m.printers[..|m.printers| - 1] else m.printers)
  }

  function Turn(m: Machine, tok: Token): Result<Machine, ParseError>
    requires Usable(m)
  {
    match tok
    case TextToken(s) => Ok(if s == "" then m else m.(program := m.program + [Text(s)]))
    case BracketToken => Ok(m.(program := m.program + [Text("[")]))
    case Directive(word, args) =>
      var n := |m.stack|;
      if word == ElseWord then
        if args != [] then Err(ArgCount)
        else if n == 0 then Err(IndexError)
        else Ok(Aside(m))
      else if word == EndWord then
        if args != [] then Err(ArgCount)
        else if n == 0 then Err(UnmatchedEnd)
        else Ok(Popped(m, m.stack[n - 1].section, m.program[m.stack[n - 1].idx..]))
      else
        var meaning :- Interpret(word, args, m.names, Current(m));
        match meaning
        case Plain(step) => Ok(m.(program := m.program + [step]))
        case Opens(opening) => Ok(Pushed(m, opening))
  }

  /* ----- a turn keeps the machine valid ----- */

  lemma ValidIsUsable(m: Machine, base: Printer)
    requires Valid(m, base)
    ensures Usable(m)
  {
    if m.stack != [] {
      TopOf(m, base);
    }
  }

  function SetAside(m: Machine, base: Printer): (r: Machine)
    requires Valid(m, base) && m.stack != []
    ensures Valid(r, base)
  {
    ValidIsUsable(m, base);
    AsideValid(m, base);
    Aside(m)
  }

  lemma AsideValid(m: Machine, base: Printer)
    requires Valid(m, base) && m.stack != [] && Usable(m)
    ensures Valid(Aside(m), base)
  {
    TopOf(m, base);
    var n := |m.stack| - 1;
    var aside := Aside(m).stack[n];
    MirrorsGrow(m.stack[..n], aside, base);
    assert Aside(m).stack == m.stack[..n] + [aside];
  }

  function Push(m: Machine, opening: Opening, base: Printer): (r: Machine)
    requires Valid(m, base)
    ensures Valid(r, base)
  {
    PushedValid(m, opening, base);
    Pushed(m, opening)
  }

  lemma PushedValid(m: Machine, opening: Opening, base: Printer)
    requires Valid(m, base)
    ensures Valid(Pushed(m, opening), base)
  {
    MirrorsGrow(m.stack, Frame(opening, |m.program|, Absent), base);
  }

  function Pop(m: Machine, onTrue: Section, body: seq<Step>, base: Printer): (r: Machine)
    requires Valid(m, base) && m.stack != []
    ensures Valid(r, base)
    ensures r.stack == m.stack[..|m.stack| - 1]
  {
    ValidIsUsable(m, base);
    PoppedValid(m, onTrue, body, base);
    Popped(m, onTrue, body)
  }

  lemma PoppedValid(m: Machine, onTrue: Section, body: seq<Step>, base: Printer)
    requires Valid(m, base) && m.stack != [] && Usable(m)
    ensures Valid(Popped(m, onTrue, body), base)
  {
    TopOf(m, base);
  }

  lemma AppendedValid(m: Machine, step: Step, base: Printer)
    requires Valid(m, base)
    ensures Valid(m.(program := m.program + [step]), base)
  {
  }

  /** One turn of the parsing loop keeps the machine valid. */
  function Feed(m: Machine, tok: Token, base: Printer): (r: Result<Machine, ParseError>)
    requires Valid(m, base)
    ensures r.Ok? ==> Valid(r.value, base)
  {
    ValidIsUsable(m, base);
    TurnValid(m, tok, base);
    Turn(m, tok)
  }

  lemma TurnValid(m: Machine, tok: Token, base: Printer)
    requires Valid(m, base) && Usable(m)
    ensures Turn(m, tok).Ok? ==> Valid(Turn(m, tok).value, base)
  {
    match tok
    case TextToken(s) => AppendedValid(m, Text(s), base);
    case BracketToken => AppendedValid(m, Text("["), base);
    case Directive(word, args) =>
      if word == ElseWord || word == EndWord {
        if args == [] && m.stack != [] {
          var top := m.stack[|m.stack| - 1];
          AsideValid(m, base);
          PoppedValid(m, top.section, m.program[top.idx..], base);
        }
      } else {
        var meaning := Interpret(word, args, m.names, Current(m));
        if meaning.Ok? {
          match meaning.value
          case Plain(step) => AppendedValid(m, step, base);
          case Opens(opening) => PushedValid(m, opening, base);
        }
      }
  }

  /* ----- the machine follows the reference parser ----- */

  // What the reference parser makes of the remaining tokens when the blocks on the
  // stack are already open.
  ghost function Resume(m: Machine, toks: seq<Token>, base: Printer): Result<seq<Step>, ParseError>
    requires Valid(m, base)
    decreases |m.stack|
  {
    if m.stack == [] then
      var section :- ParseSection(toks, m.names, Current(m));
      AtTop(m.program + section.0, section.1)
    else
      var top := m.stack[|m.stack| - 1];
      var block :- ParseBlock(toks, top.section, m.program[top.idx..], m.names, Current(m));
      Resume(Pop(m, block.0, block.1, base), block.2, base)
  }

  lemma CurrentAfterPush(m: Machine, opening: Opening)
    requires m.printers != []
    ensures Current(Pushed(m, opening)) == EnterPrinter(opening, Current(m))
  {
  }

  // Two inputs that the reference parser reads alike inside the innermost block.
  lemma ResumeAlike(m: Machine, toks: seq<Token>, m': Machine, toks': seq<Token>, base: Printer)
    requires Valid(m, base) && Valid(m', base)
    requires m.stack != [] && |m'.stack| == |m.stack|
    requires m'.stack[..|m.stack| - 1] == m.stack[..|m.stack| - 1]
    requires m'.names == m.names && m'.printers == m.printers
    requires var top, top' := m.stack[|m.stack| - 1], m'.stack[|m.stack| - 1];
             && top'.opening == top.opening
             && m'.program[..top'.idx] == m.program[..top.idx]
             && ParseBlock(toks', top'.section, m'.program[top'.idx..], m.names, Current(m)) ==
                ParseBlock(toks, top.section, m.program[top.idx..], m.names, Current(m))
    ensures Resume(m, toks, base) == Resume(m', toks', base)
  {
    var top := m.stack[|m.stack| - 1];
    var block := ParseBlock(toks, top.section, m.program[top.idx..], m.names, Current(m));
    ResumeBlock(m, toks, base);
    ResumeBlock(m', toks', base);
    if block.Ok? {
      PopAlike(m, m', block.value.0, block.value.1, base);
    }
  }

  lemma ResumeBlock(m: Machine, toks: seq<Token>, base: Printer)
    requires Valid(m, base) && m.stack != []
    ensures var top := m.stack[|m.stack| - 1];
            var block := ParseBlock(toks, top.section, m.program[top.idx..], m.names, Current(m));
            Resume(m, toks, base) ==
            if block.Err? then Err(block.error)
            else Resume(Pop(m, block.value.0, block.value.1, base), block.value.2, base)
  {
  }

  lemma PopAlike(m: Machine, m': Machine, onTrue: Section, body: seq<Step>, base: Printer)
    requires Valid(m, base) && Valid(m', base)
    requires m.stack != [] && |m'.stack| == |m.stack|
    requires m'.stack[..|m.stack| - 1] == m.stack[..|m.stack| - 1]
    requires m'.names == m.names && m'.printers == m.printers
    requires var top, top' := m.stack[|m.stack| - 1], m'.stack[|m.stack| - 1];
             top'.opening == top.opening && m'.program[..top'.idx] == m.program[..top.idx]
    ensures Pop(m', onTrue, body, base) == Pop(m, onTrue, body, base)
  {
  }

  lemma ResumeError(m: Machine, toks: seq<Token>, e: ParseError, base: Printer)
    requires Valid(m, base)
    requires ParseSection(toks, m.names, Current(m)) == Err(e)
    ensures Resume(m, toks, base) == Err(e)
  {
  }

  // An item at the head of the input is parsed into the current section.
  lemma ResumeItem(m: Machine, tok: Token, rest: seq<Token>, base: Printer)
    requires Valid(m, base)
    requires !IsElse(tok) && !IsEnd(tok)
    ensures var item := ParseItem(tok, rest, m.names, Current(m));
            Resume(m, [tok] + rest, base) ==
            if item.Err? then Err(item.error)
            else Resume(m.(program := m.program + item.value.0), item.value.1, base)
  {
    var toks := [tok] + rest;
    assert toks[1..] == rest;
    var item := ParseItem(tok, rest, m.names, Current(m));
    if item.Err? {
      ResumeError(m, toks, item.error, base);
    } else {
      var m' := m.(program := m.program + item.value.0);
      if m.stack == [] {
        TopItem(m, m', toks, item.value, base);
      } else {
        var top := m.stack[|m.stack| - 1];
        BlockItem(tok, rest, top.section, m.program[top.idx..], m.names, Current(m));
        assert m'.program[top.idx..] == m.program[top.idx..] + item.value.0;
        assert m'.program[..top.idx] == m.program[..top.idx];
        ResumeAlike(m, toks, m', item.value.1, base);
      }
    }
  }

  lemma TopItem(m: Machine, m': Machine, toks: seq<Token>, item: (seq<Step>, seq<Token>), base: Printer)
    requires Valid(m, base) && m.stack == []
    requires toks != [] && !IsElse(toks[0]) && !IsEnd(toks[0])
    requires ParseItem(toks[0], toks[1..], m.names, Current(m)) == Ok(item)
    requires m' == m.(program := m.program + item.0)
    ensures Resume(m, toks, base) == Resume(m', item.1, base)
  {
    SectionItem(toks, m.names, Current(m), item);
    var others := ParseSection(item.1, m.names, Current(m));
    if others.Ok? {
      assert m'.program + others.value.0 == m.program + (item.0 + others.value.0);
    }
  }

  lemma SectionItem(toks: seq<Token>, names: Names, printer: Printer, item: (seq<Step>, seq<Token>))
    requires toks != [] && !IsElse(toks[0]) && !IsEnd(toks[0])
    requires ParseItem(toks[0], toks[1..], names, printer) == Ok(item)
    ensures var others := ParseSection(item.1, names, printer);
            ParseSection(toks, names, printer) ==
            if others.Err? then others else Ok((item.0 + others.value.0, others.value.1))
  {
  }

  lemma BlockItem(tok: Token, rest: seq<Token>, onTrue: Section, acc: seq<Step>, names: Names, printer: Printer)
    requires !IsElse(tok) && !IsEnd(tok)
    requires ParseItem(tok, rest, names, printer).Ok?
    ensures var item := ParseItem(tok, rest, names, printer).value;
            ParseBlock([tok] + rest, onTrue, acc, names, printer) ==
            ParseBlock(item.1, onTrue, acc + item.0, names, printer)
  {
    var toks := [tok] + rest;
    assert toks[1..] == rest;
    var item := ParseItem(tok, rest, names, printer).value;
    var others := ParseSection(item.1, names, printer);
    SectionItem(toks, names, printer, item);
    if others.Ok? {
      assert acc + (item.0 + others.value.0) == (acc + item.0) + others.value.0;
    }
  }

  // A freshly opening block is what the reference parser would parse as one item.
  lemma ResumePush(m: Machine, opening: Opening, rest: seq<Token>, base: Printer)
    requires Valid(m, base)
    ensures var block := ParseBlock(rest, Absent, [], Enter(opening, m.names), EnterPrinter(opening, Current(m)));
            Resume(Push(m, opening, base), rest, base) ==
            if block.Err? then Err(block.error)
            else Resume(m.(program := m.program + Close(opening, block.value.0, block.value.1)), block.value.2, base)
  {
    var m' := Push(m, opening, base);
    CurrentAfterPush(m, opening);
    assert m'.program[|m.program|..] == [];
    assert m'.program[..|m.program|] == m.program;
    assert m'.stack[..|m'.stack| - 1] == m.stack;
    var block := ParseBlock(rest, Absent, [], m'.names, Current(m'));
    if block.Ok? {
      assert Pop(m', block.value.0, block.value.1, base)
          == m.(program := m.program + Close(opening, block.value.0, block.value.1));
    }
  }

  /** One turn of the loop does not change what the reference parser will say. */
  lemma FeedFollowsParser(m: Machine, tok: Token, rest: seq<Token>, base: Printer)
    requires Valid(m, base)
    ensures var next := Feed(m, tok, base);
            Resume(m, [tok] + rest, base) ==
            if next.Err? then Err(next.error) else Resume(next.value, rest, base)
  {
    var toks := [tok] + rest;
    assert toks[1..] == rest;
    if IsElse(tok) || IsEnd(tok) {
      if m.stack == [] || tok.args != [] {
        StrayStep(m, toks, base);
      } else if IsElse(tok) {
        ElseStep(m, tok, rest, base);
      } else {
        EndStep(m, tok, rest, base);
      }
    } else {
      ItemStep(m, tok, rest, base);
    }
  }

  lemma ItemStep(m: Machine, tok: Token, rest: seq<Token>, base: Printer)
    requires Valid(m, base)
    requires !IsElse(tok) && !IsEnd(tok)
    ensures var next := Feed(m, tok, base);
            Resume(m, [tok] + rest, base) ==
            if next.Err? then Err(next.error) else Resume(next.value, rest, base)
  {
    match tok
    case TextToken(s) =>
      ResumeItem(m, tok, rest, base);
      assert m.program + [] == m.program;
    case BracketToken => ResumeItem(m, tok, rest, base);
    case Directive(word, args) => DirectiveStep(m, word, args, rest, base);
  }

  lemma DirectiveStep(m: Machine, word: Word, args: seq<string>, rest: seq<Token>, base: Printer)
    requires Valid(m, base) && word != ElseWord && word != EndWord
    ensures var next := Feed(m, Directive(word, args), base);
            Resume(m, [Directive(word, args)] + rest, base) ==
            if next.Err? then Err(next.error) else Resume(next.value, rest, base)
  {
    ResumeItem(m, Directive(word, args), rest, base);
    var meaning := Interpret(word, args, m.names, Current(m));
    if meaning.Ok? && meaning.value.Opens? {
      ResumePush(m, meaning.value.opening, rest, base);
      OpeningItem(word, args, rest, m.names, Current(m), meaning.value.opening);
    }
  }

  // A directive that opens a block is parsed up to the end of the block.
  lemma OpeningItem(word: Word, args: seq<string>, rest: seq<Token>, names: Names, printer: Printer, opening: Opening)
    requires Interpret(word, args, names, printer) == Ok(Opens(opening))
    ensures var block := ParseBlock(rest, Absent, [], Enter(opening, names), EnterPrinter(opening, printer));
            ParseItem(Directive(word, args), rest, names, printer) ==
            if block.Err? then Err(block.error) else Ok((Close(opening, block.value.0, block.value.1), block.value.2))
  {
  }

  lemma StrayStep(m: Machine, toks: seq<Token>, base: Printer)
    requires Valid(m, base)
    requires toks != [] && (IsElse(toks[0]) || IsEnd(toks[0]))
    requires m.stack == [] || toks[0].args != []
    ensures Resume(m, toks, base) == Err(Feed(m, toks[0], base).error)
  {
    assert ParseSection(toks, m.names, Current(m)) == Ok(([], toks));
  }

  lemma ElseStep(m: Machine, tok: Token, rest: seq<Token>, base: Printer)
    requires Valid(m, base) && m.stack != []
    requires IsElse(tok) && tok.args == []
    ensures Resume(m, [tok] + rest, base) == Resume(SetAside(m, base), rest, base)
  {
    var toks := [tok] + rest;
    assert toks[1..] == rest;
    var n := |m.stack|;
    var top := m.stack[n - 1];
    var m' := SetAside(m, base);
    assert m.program[top.idx..] + [] == m.program[top.idx..];
    assert m'.program[top.idx..] == [];
    ResumeAlike(m, toks, m', rest, base);
  }

  lemma EndStep(m: Machine, tok: Token, rest: seq<Token>, base: Printer)
    requires Valid(m, base) && m.stack != []
    requires IsEnd(tok) && tok.args == []
    ensures var top := m.stack[|m.stack| - 1];
            Resume(m, [tok] + rest, base) == Resume(Pop(m, top.section, m.program[top.idx..], base), rest, base)
  {
    var toks := [tok] + rest;
    assert toks[1..] == rest;
    var top := m.stack[|m.stack| - 1];
    var acc := m.program[top.idx..];
    EndBlock(toks, top.section, acc, m.names, Current(m));
  }

  lemma EndBlock(toks: seq<Token>, onTrue: Section, acc: seq<Step>, names: Names, printer: Printer)
    requires toks != [] && IsEnd(toks[0]) && toks[0].args == []
    ensures ParseBlock(toks, onTrue, acc, names, printer) == Ok((onTrue, acc, toks[1..]))
  {
    assert acc + [] == acc;
  }

  lemma StartOfParse(toks: seq<Token>, base: Printer)
    ensures Resume(Machine([], [], [], [base]), toks[0..], base) == ParseTemplate(toks, base)
  {
    assert toks[0..] == toks;
    var section := ParseSection(toks, [], base);
    if section.Ok? {
      assert [] + section.value.0 == section.value.0;
    }
  }

  lemma EndOfParse(m: Machine, toks: seq<Token>, base: Printer)
    requires Valid(m, base) && toks == []
    ensures Resume(m, toks, base) == if m.stack == [] then Ok(m.program) else Err(UnclosedBlocks)
  {
    assert m.program + [] == m.program;
    assert ParseSection(toks, m.names, Current(m)) == Ok(([], toks));
  }

  /** A turn of the parsing loop: cuts the program at a stacked position when a section or
      a block ends, and stacks the current position when a block opens. */
  method HandleToken(tok: Token, program: seq<Step>, stack: seq<Frame>,
                     names: Names, printers: seq<Printer>)
    returns (r: Result<Machine, ParseError>)
    requires Usable(Machine(program, stack, names, printers))
    ensures r == Turn(Machine(program, stack, names, printers), tok)
  {
    if tok.TextToken? {
      return Ok(Machine(if tok.text == "" then program else program + [Text(tok.text)], stack, names, printers));
    }
    if tok.BracketToken? {
      return Ok(Machine(program + [Text("[")], stack, names, printers));
    }
    if tok.word == ElseWord {
      r := HandleElse(tok.args, program, stack, names, printers);
    } else if tok.word == EndWord {
      r := HandleEnd(tok.args, program, stack, names, printers);
    } else {
      r := HandleDirective(tok.word, tok.args, program, stack, names, printers);
    }
  }

  method HandleElse(args: seq<string>, program: seq<Step>, stack: seq<Frame>,
                    names: Names, printers: seq<Printer>)
    returns (r: Result<Machine, ParseError>)
    requires Usable(Machine(program, stack, names, printers))
    ensures r == Turn(Machine(program, stack, names, printers), Directive(ElseWord, args))
  {
    if args != [] {
      return Err(ArgCount);
    }
    if stack == [] {
      return Err(IndexError);
    }
    var idx := stack[|stack| - 1].idx;
    var section := program[idx..];
    var stack' := stack[|stack| - 1 := stack[|stack| - 1].(section := Present(section))];
    return Ok(Machine(program[..idx], stack', names, printers));
  }

  method HandleEnd(args: seq<string>, program: seq<Step>, stack: seq<Frame>,
                   names: Names, printers: seq<Printer>)
    returns (r: Result<Machine, ParseError>)
    requires Usable(Machine(program, stack, names, printers))
    ensures r == Turn(Machine(program, stack, names, printers), Directive(EndWord, args))
  {
    if args != [] {
      return Err(ArgCount);
    }
    if stack == [] {
      return Err(UnmatchedEnd);
    }
    var top := stack[|stack| - 1];
    var program', names', printers' := program, names, printers;
    match top.opening {
      case FormatBlock(_) =>
        printers' := printers[..|printers| - 1];
        assert program[..top.idx] + program[top.idx..] == program;
      case Node(command) =>
        program' := program[..top.idx] + [Block(command, top.section, program[top.idx..])];
        if command.For? {
          names' := names[..|names| - 1];
        }
    }
    return Ok(Machine(program', stack[..|stack| - 1], names', printers'));
  }

  method HandleDirective(word: Word, args: seq<string>, program: seq<Step>, stack: seq<Frame>,
                         names: Names, printers: seq<Printer>)
    returns (r: Result<Machine, ParseError>)
    requires Usable(Machine(program, stack, names, printers))
    requires word != ElseWord && word != EndWord
    ensures r == Turn(Machine(program, stack, names, printers), Directive(word, args))
  {
    var meaning :- Interpret(word, args, names, printers[|printers| - 1]);
    match meaning {
      case Plain(step) =>
        return Ok(Machine(program + [step], stack, names, printers));
      case Opens(opening) =>
        var names', printers' := names, printers;
        match opening {
          case FormatBlock(printer) => printers' := printers + [printer];
          case Node(command) =>
            if command.For? {
              names' := names + [RefName(command.list)];
            }
        }
        return Ok(Machine(program, stack + [Frame(opening, |program|, Absent)], names', printers'));
    }
  }

  lemma Advance(m: Machine, toks: seq<Token>, i: nat, base: Printer)
    requires Valid(m, base) && i < |toks|
    ensures var next := Feed(m, toks[i], base);
            Resume(m, toks[i..], base) ==
            if next.Err? then Err(next.error) else Resume(next.value, toks[i + 1..], base)
  {
    assert toks[i..] == [toks[i]] + toks[i + 1..];
    FeedFollowsParser(m, toks[i], toks[i + 1..], base);
  }

  // After i tokens the machine is valid, and the reference parser would go on to the result of
  // the whole.
  ghost predicate OnTrack(m: Machine, toks: seq<Token>, i: nat, base: Printer) {
    i <= |toks| && Valid(m, base) && Resume(m, toks[i..], base) == ParseTemplate(toks, base)
  }

  lemma StartsOnTrack(toks: seq<Token>, base: Printer)
    ensures OnTrack(Machine([], [], [], [base]), toks, 0, base)
  {
    StartOfParse(toks, base);
  }

  lemma StaysOnTrack(m: Machine, toks: seq<Token>, i: nat, base: Printer)
    requires OnTrack(m, toks, i, base) && i < |toks|
    ensures Usable(m)
    ensures var next := Turn(m, toks[i]);
            if next.Err? then ParseTemplate(toks, base) == Err(next.error) else OnTrack(next.value, toks, i + 1, base)
  {
    ValidIsUsable(m, base);
    Advance(m, toks, i, base);
    assert Feed(m, toks[i], base) == Turn(m, toks[i]);
  }

  lemma EndsOnTrack(m: Machine, toks: seq<Token>, base: Printer)
    requires OnTrack(m, toks, |toks|, base)
    ensures ParseTemplate(toks, base) == if m.stack == [] then Ok(m.program) else Err(UnclosedBlocks)
  {
    EndOfParse(m, toks[|toks|..], base);
  }

  /** The compiler: one pass over the tokens with an explicit stack of open blocks. */
  method Compile(toks: seq<Token>, base: Printer) returns (r: Result<seq<Step>, ParseError>)
    ensures r == ParseTemplate(toks, base)
  {
    var program: seq<Step> := [];
    var stack: seq<Frame> := [];
    var names: Names := [];
    var printers := [base];
    StartsOnTrack(toks, base);
    var i := 0;
    while i < |toks|
      invariant OnTrack(Machine(program, stack, names, printers), toks, i, base)
    {
      StaysOnTrack(Machine(program, stack, names, printers), toks, i, base);
      var m :- HandleToken(toks[i], program, stack, names, printers);
      program, stack, names, printers := m.program, m.stack, m.names, m.printers;
      i := i + 1;
    }
    EndsOnTrack(Machine(program, stack, names, printers), toks, base);
    if stack != [] {
      return Err(UnclosedBlocks);
    }
    return Ok(program);
  }
}
