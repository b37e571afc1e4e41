/** When a template compiles, said of its tokens alone: every directive has the arguments it
    needs, and blocks, elses and ends nest. */
module EztGrammar {
  import opened Wrappers
  import opened EztSyntax
  import opened EztCompiler

  /* ----- argument checks ----- */

  predicate Quoted(arg: string) {
    arg != "" && arg[0] == '"'
  }

  predicate RefArg(arg: string) {
    arg != "" && (Quoted(arg) || !NegativeArg(Split(arg)[0]))
  }

  predicate RefArgs(args: seq<string>) {
    forall i :: 0 <= i < |args| ==> RefArg(args[i])
  }

  predicate ArgsOk(t: Token) {
    t.Directive? ==>
      match t.word
      case ElseWord => t.args == []
      case EndWord => t.args == []
      case ForWord => |t.args| == 1 && RefArg(t.args[0])
      case IfIndexWord => 1 <= |t.args| <= 2 && RefArg(t.args[0])
      case IsWord => |t.args| == 2 && RefArg(t.args[0]) && RefArg(t.args[1])
      case DefineWord => |t.args| <= 1
      case FormatWord => |t.args| == 1 && Quoted(t.args[0]) && PrinterNamed(Unquote(t.args[0])).Some?
      case IncludeWord => |t.args| == 1 && RefArg(t.args[0]) && !Quoted(t.args[0])
      case IfAnyWord => RefArgs(t.args)
      case PrintWord => RefArgs(t.args)
  }

  /* ----- nesting ----- */

  predicate IsBlock(t: Token) {
    && t.Directive?
    && t.word != ElseWord && t.word != EndWord && t.word != IncludeWord && t.word != PrintWord
  }

  // The number of blocks that are open after the tokens.
  function Depth(toks: seq<Token>): int {
    if toks == [] then 0
    else
      var last := toks[|toks| - 1];
      Depth(toks[..|toks| - 1]) + (if IsBlock(last) then 1 else if IsEnd(last) then -1 else 0)
  }

  // Nothing is wrong with the k-th token: its arguments are right, and there is a block for an
  // 'else' or 'end'.
  predicate FineAt(toks: seq<Token>, k: nat)
    requires k < |toks|
  {
    ArgsOk(toks[k]) && (IsElse(toks[k]) || IsEnd(toks[k]) ==> Depth(toks[..k]) > 0)
  }

  predicate Nests(toks: seq<Token>) {
    Depth(toks) == 0 && forall k :: 0 <= k < |toks| && (IsElse(toks[k]) || IsEnd(toks[k])) ==> Depth(toks[..k]) > 0
  }

  predicate FineFrom(toks: seq<Token>, i: nat) {
    forall k :: i <= k < |toks| ==> FineAt(toks, k)
  }

  // The first wrong token, from the i-th on, is an 'end' without a block.
  ghost predicate StrayEndAt(toks: seq<Token>, i: nat, k: nat) {
    && i <= k < |toks|
    && (forall j :: i <= j < k ==> FineAt(toks, j))
    && IsEnd(toks[k]) && toks[k].args == [] && Depth(toks[..k]) <= 0
  }

  ghost predicate StrayEndFrom(toks: seq<Token>, i: nat) {
    exists k :: StrayEndAt(toks, i, k)
  }

  lemma StrayStep(toks: seq<Token>, i: nat)
    requires i < |toks|
    ensures FineAt(toks, i) ==> (StrayEndFrom(toks, i) <==> StrayEndFrom(toks, i + 1))
    ensures !FineAt(toks, i) ==> (StrayEndFrom(toks, i) <==> StrayEndAt(toks, i, i))
  {
    var next := i + 1;
    if FineAt(toks, i) {
      if k :| StrayEndAt(toks, i, k) {
        assert k != i;
        assert StrayEndAt(toks, next, k);
      }
      if k :| StrayEndAt(toks, next, k) {
        assert StrayEndAt(toks, i, k);
      }
    } else if k :| StrayEndAt(toks, i, k) {
      assert k == i;
    }
  }

  lemma NestsExactly(toks: seq<Token>)
    ensures FineFrom(toks, 0) && Depth(toks) == 0 <==> (forall k :: 0 <= k < |toks| ==> ArgsOk(toks[k])) && Nests(toks)
  {
    if FineFrom(toks, 0) && Depth(toks) == 0 {
      forall k | 0 <= k < |toks|
        ensures ArgsOk(toks[k]) && (IsElse(toks[k]) || IsEnd(toks[k]) ==> Depth(toks[..k]) > 0)
      {
        assert FineAt(toks, k);
      }
    }
  }

  /* ----- the checks of the compiler ----- */

  lemma PrepareExactly(arg: string, names: Names)
    ensures var r := PrepareRef(arg, names);
            && (r.Ok? <==> RefArg(arg))
            && (r.Ok? ==> (r.value.Const? <==> Quoted(arg)))
            && (r.Ok? && r.value.Const? ==> r.value.text == Unquote(arg))
            && (r.Err? ==> r.error == IndexError)
  {
  }

  lemma {:induction false} PrepareAllExactly(args: seq<string>, names: Names)
    ensures var r := PrepareAll(args, names);
            (r.Ok? <==> RefArgs(args)) && (r.Err? ==> r.error == IndexError)
  {
    if args != [] {
      PrepareExactly(args[0], names);
      PrepareAllExactly(args[1..], names);
      assert forall i :: 0 < i < |args| ==> args[i] == args[1..][i - 1];
    }
  }

  lemma OpenExactly(word: Word, args: seq<string>, names: Names)
    requires IsBlock(Directive(word, args)) && word != IfAnyWord
    ensures var r := OpenBlock(word, args, names);
            && (r.Ok? <==> ArgsOk(Directive(word, args)))
            && (r.Err? ==> r.error != UnclosedBlocks && r.error != UnmatchedEnd)
  {
    if args != [] {
      PrepareExactly(args[0], names);
      if |args| == 2 {
        PrepareExactly(args[1], names);
      }
    }
  }

  // Whether a directive is accepted does not depend on the enclosing blocks.
  lemma InterpretExactly(word: Word, args: seq<string>, names: Names, printer: Printer)
    requires word != ElseWord && word != EndWord
    ensures var r := Interpret(word, args, names, printer);
            && (r.Ok? <==> ArgsOk(Directive(word, args)))
            && (r.Ok? ==> (r.value.Opens? <==> IsBlock(Directive(word, args))))
            && (r.Err? ==> r.error != UnclosedBlocks && r.error != UnmatchedEnd)
  {
    if IsBlock(Directive(word, args)) && word != IfAnyWord {
      OpenExactly(word, args, names);
    } else {
      PrepareAllExactly(args, names);
      if args != [] {
        PrepareExactly(args[0], names);
        PrepareAllExactly(args[1..], names);
      }
    }
  }

  lemma FeedExactly(m: Machine, tok: Token, base: Printer)
    requires Valid(m, base)
    ensures var r := Feed(m, tok, base);
            && (r.Ok? <==> ArgsOk(tok) && (IsElse(tok) || IsEnd(tok) ==> m.stack != []))
            && (r.Ok? ==> |r.value.stack| == |m.stack| + (if IsBlock(tok) then 1 else if IsEnd(tok) then -1 else 0))
            && (r.Err? ==> r.error != UnclosedBlocks)
            && (r == Err(UnmatchedEnd) <==> IsEnd(tok) && tok.args == [] && m.stack == [])
  {
    if tok.Directive? && tok.word != ElseWord && tok.word != EndWord {
      InterpretExactly(tok.word, tok.args, m.names, Current(m));
    }
  }

  /* ----- whole templates ----- */

  lemma {:induction false} ResumeExactly(m: Machine, toks: seq<Token>, i: nat, base: Printer)
    requires Valid(m, base) && i <= |toks| && |m.stack| == Depth(toks[..i])
    ensures var r := Resume(m, toks[i..], base);
            && (r.Ok? <==> FineFrom(toks, i) && Depth(toks) == 0)
            && (r == Err(UnclosedBlocks) <==> FineFrom(toks, i) && Depth(toks) > 0)
            && (r == Err(UnmatchedEnd) <==> StrayEndFrom(toks, i))
    decreases |toks| - i
  {
    if i == |toks| {
      EndOfParse(m, toks[i..], base);
      assert toks[..i] == toks;
    } else {
      Advance(m, toks, i, base);
      FeedExactly(m, toks[i], base);
      StrayStep(toks, i);
      var next := Feed(m, toks[i], base);
      assert next.Ok? <==> FineAt(toks, i);
      if next.Ok? {
        assert toks[..i + 1][..i] == toks[..i];
        ResumeExactly(next.value, toks, i + 1, base);
        assert FineFrom(toks, i) <==> FineFrom(toks, i + 1);
      }
    }
  }

  /** A template compiles if and only if the arguments of every directive are right and the
      blocks nest. It fails for unclosed blocks if and only if only the closing is missing, and
      for an unmatched 'end' if and only if that is the first thing wrong with it. */
  lemma CompilesExactly(toks: seq<Token>, base: Printer)
    ensures ParseTemplate(toks, base).Ok? <==> (forall k :: 0 <= k < |toks| ==> ArgsOk(toks[k])) && Nests(toks)
    ensures ParseTemplate(toks, base) == Err(UnclosedBlocks) <==>
            FineFrom(toks, 0) && Depth(toks) > 0
    ensures ParseTemplate(toks, base) == Err(UnmatchedEnd) <==> StrayEndFrom(toks, 0)
  {
    StartOfParse(toks, base);
    ResumeExactly(Machine([], [], [], [base]), toks, 0, base);
    NestsExactly(toks);
  }

  /* ----- which complaint a template draws ----- */

  // What is wrong with a token: too many arguments, a missing or
  // unreadable one, a format that is no constant or no known one, an included file, or an 'else'
  // or 'end' without a block.
  function Complaint(t: Token): ParseError {
    match t
    case Directive(ElseWord, args) => if args != [] then ArgCount else IndexError
    case Directive(EndWord, args) => if args != [] then ArgCount else UnmatchedEnd
    case Directive(IncludeWord, args) =>
      if args == [] || args[0] == "" then IndexError
      else if Quoted(args[0]) then if RefArgs(args[1..]) then BaseUnavailable else IndexError
      else if |args| > 1 then ArgCount
      else IndexError
    case Directive(FormatWord, args) =>
      if |args| > 1 then ArgCount
      else if args == [] || !RefArg(args[0]) then IndexError
      else if !Quoted(args[0]) then BadFormatConstant
      else UnknownFormatConstant
    case Directive(IfIndexWord, args) => if |args| > 2 then ArgCount else IndexError
    case Directive(IsWord, args) => if |args| > 2 then ArgCount else IndexError
    case Directive(ForWord, args) => if |args| > 1 then ArgCount else IndexError
    case Directive(DefineWord, args) => ArgCount
    case _ => IndexError
  }

  lemma IncludeComplains(args: seq<string>, names: Names, printer: Printer)
    requires Interpret(IncludeWord, args, names, printer).Err?
    ensures Interpret(IncludeWord, args, names, printer).error == Complaint(Directive(IncludeWord, args))
  {
    if args != [] {
      PrepareExactly(args[0], names);
      PrepareAllExactly(args[1..], names);
    }
  }

  lemma BlockComplains(word: Word, args: seq<string>, names: Names)
    requires word in {ForWord, IfIndexWord, IsWord, DefineWord, FormatWord} && OpenBlock(word, args, names).Err?
    ensures OpenBlock(word, args, names).error == Complaint(Directive(word, args))
  {
    if args != [] {
      PrepareExactly(args[0], names);
      if |args| == 2 {
        PrepareExactly(args[1], names);
      }
    }
  }

  lemma InterpretComplains(word: Word, args: seq<string>, names: Names, printer: Printer)
    requires word != ElseWord && word != EndWord && Interpret(word, args, names, printer).Err?
    ensures Interpret(word, args, names, printer).error == Complaint(Directive(word, args))
  {
    if word == IncludeWord {
      IncludeComplains(args, names, printer);
    } else if word == IfAnyWord || word == PrintWord {
      PrepareAllExactly(args, names);
    } else {
      BlockComplains(word, args, names);
    }
  }

  lemma FeedComplains(m: Machine, tok: Token, base: Printer)
    requires Valid(m, base) && Feed(m, tok, base).Err?
    ensures Feed(m, tok, base).error == Complaint(tok)
  {
    if tok.word != ElseWord && tok.word != EndWord {
      InterpretComplains(tok.word, tok.args, m.names, Current(m));
    }
  }

  lemma {:induction false} ResumeFault(m: Machine, toks: seq<Token>, i: nat, k: nat, base: Printer)
    requires Valid(m, base) && i <= k < |toks| && |m.stack| == Depth(toks[..i])
    requires (forall j :: i <= j < k ==> FineAt(toks, j)) && !FineAt(toks, k)
    ensures Resume(m, toks[i..], base) == Err(Complaint(toks[k]))
    decreases k - i
  {
    if i == k {
      FaultHere(m, toks, i, base);
    } else {
      var next := FineHere(m, toks, i, base);
      ResumeFault(next, toks, i + 1, k, base);
    }
  }

  lemma FaultHere(m: Machine, toks: seq<Token>, i: nat, base: Printer)
    requires Valid(m, base) && i < |toks| && |m.stack| == Depth(toks[..i]) && !FineAt(toks, i)
    ensures Resume(m, toks[i..], base) == Err(Complaint(toks[i]))
  {
    Advance(m, toks, i, base);
    FeedExactly(m, toks[i], base);
    FeedComplains(m, toks[i], base);
  }

  lemma FineHere(m: Machine, toks: seq<Token>, i: nat, base: Printer) returns (next: Machine)
    requires Valid(m, base) && i < |toks| && |m.stack| == Depth(toks[..i]) && FineAt(toks, i)
    ensures Valid(next, base) && |next.stack| == Depth(toks[..i + 1])
    ensures Resume(m, toks[i..], base) == Resume(next, toks[i + 1..], base)
  {
    Advance(m, toks, i, base);
    FeedExactly(m, toks[i], base);
    next := Feed(m, toks[i], base).value;
    assert toks[..i + 1][..i] == toks[..i];
  }

  /** A template with a wrong token draws the complaint about the first one. */
  lemma FirstFault(toks: seq<Token>, k: nat, base: Printer)
    requires k < |toks| && (forall j :: 0 <= j < k ==> FineAt(toks, j)) && !FineAt(toks, k)
    ensures ParseTemplate(toks, base) == Err(Complaint(toks[k]))
  {
    StartOfParse(toks, base);
    ResumeFault(Machine([], [], [], [base]), toks, 0, k, base);
  }
}
