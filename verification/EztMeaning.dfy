/** What templates write, said of tokens and values: the meaning of each directive as a law across
    the compiler and the interpreter. */
module EztMeaning {
  import opened Wrappers
  import opened EztSyntax
  import opened EztCompiler
  import opened EztRender
  import opened EztGrammar
  import opened EztInterpreter
  import opened EztCompose
  import Ascii

  // The run of a program, as the interpreter does it.
  function Run(program: seq<Step>, st: State, data: Data): Outcome {
    Exec(program, st, data, Prepared)
  }

  /* ----- runs one after another ----- */

  lemma {:induction false} RunConcat(p: seq<Step>, q: seq<Step>, st: State, data: Data)
    ensures var o := Run(p, st, data);
            Run(p + q, st, data) == if o.error.Some? then o else Run(q, o.st, data)
    decreases |p|
  {
    if p == [] {
      assert p + q == q;
    } else {
      assert (p + q)[0] == p[0] && (p + q)[1..] == p[1..] + q;
      var o := ExecStep(p[0], st, data, Prepared);
      if o.error.None? {
        RunConcat(p[1..], q, o.st, data);
      }
    }
  }

  lemma RunOne(step: Step, st: State, data: Data)
    ensures Run([step], st, data) == ExecStep(step, st, data, Prepared)
  {
    var none: seq<Step> := [];
    assert [step][1..] == none;
    var o := ExecStep(step, st, data, Prepared);
    assert Run(none, o.st, data) == Outcome(o.st, None);
  }

  /** One template after another writes one output after another. */
  lemma SequenceRuns(a: seq<Token>, b: seq<Token>, names: Names, printer: Printer, p: seq<Step>, q: seq<Step>,
                     st: State, data: Data)
    requires Compiles(a, names, printer, p) && Compiles(b, names, printer, q)
    ensures Compiles(a + b, names, printer, p + q)
    ensures var o := Run(p, st, data);
            Run(p + q, st, data) == if o.error.Some? then o else Run(q, o.st, data)
  {
    TwoCompile(a, b, names, printer, p, q);
    RunConcat(p, q, st, data);
  }

  /** Text is written as it stands, and a bracket token as an opening bracket. */
  lemma TextRuns(s: string, names: Names, printer: Printer, st: State, data: Data) returns (p: seq<Step>, q: seq<Step>)
    ensures Compiles([TextToken(s)], names, printer, p) && Run(p, st, data) == Outcome(st.(out := st.out + s), None)
    ensures Compiles([BracketToken], names, printer, q) && Run(q, st, data) == Outcome(st.(out := st.out + "["), None)
  {
    p, q := if s == "" then [] else [Text(s)], [Text("[")];
    SingleToken(TextToken(s), names, printer, p);
    SingleToken(BracketToken, names, printer, q);
    RunOne(Text(s), st, data);
    RunOne(Text("["), st, data);
    assert st.out + "" == st.out;
  }

  lemma SingleToken(tok: Token, names: Names, printer: Printer, steps: seq<Step>)
    requires !IsElse(tok) && !IsEnd(tok) && ParseItem(tok, [], names, printer) == Ok((steps, []))
    ensures Compiles([tok], names, printer, steps)
  {
    var none: seq<Token> := [];
    assert [tok][1..] == none;
    SectionItem([tok], names, printer, (steps, none));
    assert ParseSection(none, names, printer) == Ok(([], none));
    assert steps + [] == steps;
  }

  /* ----- values of arguments ----- */

  function ArgValue(arg: string, names: Names, st: State, data: Data): Result<Value, ExecError>
    requires RefArg(arg)
  {
    PrepareExactly(arg, names);
    GetPrepared(PrepareRef(arg, names).value, st, data)
  }

  /** A quoted argument is its text. */
  lemma QuotedValue(s: string, names: Names, st: State, data: Data)
    ensures RefArg("\"" + s + "\"") && ArgValue("\"" + s + "\"", names, st, data) == Ok(Str(s))
  {
    assert Unquote("\"" + s + "\"") == s;
  }

  // What a value is read as: a number as its digits, and None as the empty text.
  predicate ReadAs(w: Value, v: Value) {
    match w
    case Num(shown) => v == Str(shown)
    case Nil => v == Str("")
    case _ => v == w
  }

  predicate HasAttr(ob: Value, name: string, next: Value) {
    ob.Obj? && name in ob.attrs && ob.attrs[name] == next
  }

  predicate IsPath(path: seq<Value>, attrs: seq<string>) {
    |path| == |attrs| + 1 && forall i :: 0 <= i < |attrs| ==> HasAttr(path[i], attrs[i], path[i + 1])
  }

  // The objects on the way from one to another, attribute by attribute.
  ghost predicate Leads(ob: Value, attrs: seq<string>, w: Value) {
    exists path: seq<Value> :: IsPath(path, attrs) && path[0] == ob && path[|attrs|] == w
  }

  lemma {:induction false} WalkLeads(ob: Value, attrs: seq<string>, w: Value)
    ensures Walk(ob, attrs) == Ok(w) <==> Leads(ob, attrs, w)
    decreases |attrs|
  {
    if attrs == [] {
      assert IsPath([ob], attrs);
    } else {
      if Walk(ob, attrs) == Ok(w) {
        var next := ob.attrs[attrs[0]];
        WalkLeads(next, attrs[1..], w);
        var tail :| IsPath(tail, attrs[1..]) && tail[0] == next && tail[|attrs| - 1] == w;
        ExtendPath(ob, tail, attrs);
        assert ([ob] + tail)[|attrs|] == w;
      }
      if path :| IsPath(path, attrs) && path[0] == ob && path[|attrs|] == w {
        ShortenPath(path, attrs);
        assert path[1..][0] == path[1] && path[1..][|attrs| - 1] == w;
        WalkLeads(path[1], attrs[1..], w);
      }
    }
  }

  lemma ExtendPath(ob: Value, tail: seq<Value>, attrs: seq<string>)
    requires attrs != [] && IsPath(tail, attrs[1..]) && HasAttr(ob, attrs[0], tail[0])
    ensures IsPath([ob] + tail, attrs)
  {
    var rest, path := attrs[1..], [ob] + tail;
    forall i | 0 <= i < |attrs| ensures HasAttr(path[i], attrs[i], path[i + 1]) {
      if i > 0 {
        assert attrs[i] == rest[i - 1] && path[i] == tail[i - 1] && path[i + 1] == tail[i];
      }
    }
  }

  lemma ShortenPath(path: seq<Value>, attrs: seq<string>)
    requires attrs != [] && IsPath(path, attrs)
    ensures IsPath(path[1..], attrs[1..]) && HasAttr(path[0], attrs[0], path[1])
  {
    var rest, tail := attrs[1..], path[1..];
    forall i | 0 <= i < |rest| ensures HasAttr(tail[i], rest[i], tail[i + 1]) {
      assert rest[i] == attrs[i + 1] && tail[i] == path[i + 1] && tail[i + 1] == path[i + 2];
    }
  }

  ghost predicate Found(ob: Value, attrs: seq<string>, v: Value) {
    exists w :: Leads(ob, attrs, w) && ReadAs(w, v)
  }

  function Seen(ob: Value, attrs: seq<string>): Result<Value, ExecError> {
    var w := Walk(ob, attrs);
    if w.Err? then w else Ok(Plainly(w.value))
  }

  lemma SeenIsFound(ob: Value, attrs: seq<string>, v: Value)
    ensures Seen(ob, attrs) == Ok(v) <==> Found(ob, attrs, v)
  {
    if Seen(ob, attrs) == Ok(v) {
      WalkLeads(ob, attrs, Walk(ob, attrs).value);
    }
    if w :| Leads(ob, attrs, w) && ReadAs(w, v) {
      WalkLeads(ob, attrs, w);
    }
  }

  /** Inside loops, the longest prefix that names a loop is that loop's current item, and the other
      parts of the name lead on from there. */
  lemma LoopValue(x: string, k: nat, names: Names, st: State, data: Data, items: seq<Value>, i: nat, v: Value)
    requires RefArg(x) && !Quoted(x) && 0 < k <= |Split(x)|
    requires var loop := Join(Split(x)[..k]);
             Some(loop) in names && loop in st.forIndex && st.forIndex[loop] == (items, i)
    requires forall j :: k < j <= |Split(x)| ==> Some(Join(Split(x)[..j])) !in names
    requires i < |items|
    ensures ArgValue(x, names, st, data) == Ok(v) <==> Found(items[i], Split(x)[k..], v)
  {
    var parts := Split(x);
    PrefixIs(parts, names, |parts|, k);
    SeenIsFound(items[i], parts[k..], v);
  }

  lemma {:induction false} PrefixIs(parts: seq<string>, names: Names, n: nat, k: nat)
    requires 0 < k <= n <= |parts| && Some(Join(parts[..k])) in names
    requires forall j :: k < j <= |parts| ==> Some(Join(parts[..j])) !in names
    ensures ForPrefix(parts, names, n) == k
  {
    if n > k {
      PrefixIs(parts, names, n - 1, k);
    }
  }

  // The object that a name starts from outside loops: what was defined, before what is given.
  ghost predicate StartsAt(name: string, st: State, data: Data, ob: Value) {
    if name in st.defines then ob == Str(st.defines[name]) else name in data && ob == data[name]
  }

  /** A dotted name outside loops has a value if and only if its first part is defined or given and
      the other parts lead from there to an object, which it is then read as. */
  lemma NameValue(x: string, st: State, data: Data, v: Value)
    requires RefArg(x) && !Quoted(x) && st.forIndex == map[]
    ensures var parts := Split(x);
            ArgValue(x, [], st, data) == Ok(v) <==>
            exists ob :: StartsAt(parts[0], st, data, ob) && Found(ob, parts[1..], v)
  {
    var parts := Split(x);
    LookedUp(x, st, data);
    var start := Outside(parts[0], st, data);
    if start.Ok? {
      assert StartsAt(parts[0], st, data, start.value);
      SeenIsFound(start.value, parts[1..], v);
    }
  }

  lemma LookedUp(x: string, st: State, data: Data)
    requires RefArg(x) && !Quoted(x) && st.forIndex == map[]
    ensures var parts := Split(x);
            var ob := Outside(parts[0], st, data);
            ArgValue(x, [], st, data) == if ob.Err? then ob else Seen(ob.value, parts[1..])
  {
    var parts := Split(x);
    assert ForPrefix(parts, [], |parts|) == 0;
  }

  /* ----- printing ----- */

  /** A single argument whose value is text is written under the printer of the place. */
  lemma PrintRuns(arg: string, names: Names, printer: Printer, st: State, data: Data, s: string) returns (p: seq<Step>)
    requires RefArg(arg) && ArgValue(arg, names, st, data) == Ok(Str(s))
    ensures Compiles([Directive(PrintWord, [arg])], names, printer, p)
    ensures Run(p, st, data) == Outcome(st.(out := st.out + Shown(printer, s)), None)
  {
    PrepareExactly(arg, names);
    var ref := PrepareRef(arg, names).value;
    var refs := [ref];
    OneArg(arg, names);
    p := [Print(printer, refs)];
    assert Interpret(PrintWord, [arg], names, printer) == Ok(Plain(Print(printer, refs)));
    SingleToken(Directive(PrintWord, [arg]), names, printer, p);
    RunOne(Print(printer, refs), st, data);
    var none: seq<ValRef> := [];
    assert refs[1..] == none;
    assert GetAll(none, st, data, Prepared) == Ok([]);
    assert GetAll(refs, st, data, Prepared) == Ok([Str(s)] + []);
    assert [Str(s)] + [] == [Str(s)];
  }

  lemma OneArg(arg: string, names: Names)
    requires RefArg(arg)
    ensures PrepareRef(arg, names).Ok? && PrepareAll([arg], names) == Ok([PrepareRef(arg, names).value])
  {
    PrepareExactly(arg, names);
    var none: seq<string> := [];
    assert [arg][1..] == none;
    assert PrepareAll(none, names) == Ok([]);
    var ref := PrepareRef(arg, names).value;
    assert [ref] + [] == [ref];
  }

  // The text that an escaped text stands for.
  function Unescaped(s: string): string {
    if s == "" then ""
    else if |s| >= 5 && s[..5] == "&amp;" then "&" + Unescaped(s[5..])
    else if |s| >= 4 && s[..4] == "&lt;" then "<" + Unescaped(s[4..])
    else if |s| >= 4 && s[..4] == "&gt;" then ">" + Unescaped(s[4..])
    else [s[0]] + Unescaped(s[1..])
  }

  /** The raw printer writes text as it is; the others write text without angle brackets that stands
      for it. */
  lemma {:induction false} ShownMeans(p: Printer, s: string)
    ensures p == Raw ==> Shown(p, s) == s
    ensures p != Raw ==> '<' !in Shown(p, s) && '>' !in Shown(p, s) && Unescaped(Shown(p, s)) == s
  {
    EscapeMeans(s);
  }

  lemma {:induction false} EscapeMeans(s: string)
    ensures '<' !in Escape(s) && '>' !in Escape(s) && Unescaped(Escape(s)) == s
  {
    if s != "" {
      EscapeMeans(s[1..]);
      EscapedChar(s[0], Escape(s[1..]));
    }
  }

  lemma EscapedChar(c: char, rest: string)
    ensures '<' !in EscapeChar(c) && '>' !in EscapeChar(c)
    ensures Unescaped(EscapeChar(c) + rest) == [c] + Unescaped(rest)
  {
    var e := EscapeChar(c) + rest;
    if c == '&' {
      assert e[..5] == "&amp;" && e[5..] == rest;
    } else if c == '<' {
      assert e[..4] == "&lt;" && e[4..] == rest && e[1] != 'a';
      assert |e| >= 5 ==> e[..5] != "&amp;" by { assert |e| >= 5 ==> e[..5][1] == 'l'; }
    } else if c == '>' {
      assert e[..4] == "&gt;" && e[4..] == rest && e[1] == 'g';
      assert |e| >= 5 ==> e[..5] != "&amp;" by { assert |e| >= 5 ==> e[..5][1] == 'g'; }
      assert e[..4] != "&lt;" by { assert e[..4][1] == 'g'; }
    } else {
      assert e[0] == c && e[1..] == rest;
      assert |e| >= 5 ==> e[..5] != "&amp;" by { assert |e| >= 5 ==> e[..5][0] == c; }
      assert |e| >= 4 ==> e[..4] != "&lt;" && e[..4] != "&gt;" by { assert |e| >= 4 ==> e[..4][0] == c; }
    }
  }

  /* ----- conditions ----- */

  predicate IsEmpty(v: Value) {
    v == Str("") || v == List([])
  }

  // The program of a block with both sections runs the one that the condition chooses.
  lemma ChosenRuns(cmd: Command, onTrue: seq<Step>, body: seq<Step>, st: State, data: Data, value: bool)
    requires (cmd.IfAny? || cmd.IfIndex? || cmd.Is?) && Condition(cmd, st, data, Prepared) == Ok(value)
    ensures Run([Block(cmd, Present(onTrue), body)], st, data) == Run(if value then onTrue else body, st, data)
    ensures Run([Block(cmd, Absent, body)], st, data) == if value then Run(body, st, data) else Outcome(st, None)
  {
    RunOne(Block(cmd, Present(onTrue), body), st, data);
    RunOne(Block(cmd, Absent, body), st, data);
  }

  // The tokens of a block with an 'else', and without.
  function WithElse(word: Word, args: seq<string>, t: seq<Token>, f: seq<Token>): seq<Token> {
    [Directive(word, args)] + (t + ([ELSE] + (f + [END])))
  }

  function Without(word: Word, args: seq<string>, t: seq<Token>): seq<Token> {
    [Directive(word, args)] + (t + [END])
  }

  // The first argument that is not empty decides.
  lemma {:induction false} AnyAt(refs: seq<ValRef>, st: State, data: Data, k: nat)
    requires k <= |refs|
    requires forall i :: 0 <= i < k ==>
               GetPrepared(refs[i], st, data).Ok? && IsEmpty(GetPrepared(refs[i], st, data).value)
    ensures k == |refs| ==> AnyTruthy(refs, st, data, Prepared) == Ok(false)
    ensures k < |refs| ==>
              var v := GetPrepared(refs[k], st, data);
              && (v.Ok? && !IsEmpty(v.value) ==> AnyTruthy(refs, st, data, Prepared) == Ok(true))
              && (v.Err? ==> AnyTruthy(refs, st, data, Prepared) == Err(v.error))
    decreases |refs|
  {
    if k > 0 {
      forall i | 0 <= i < k - 1
        ensures GetPrepared(refs[1..][i], st, data).Ok? && IsEmpty(GetPrepared(refs[1..][i], st, data).value)
      {
        assert refs[1..][i] == refs[i + 1];
      }
      AnyAt(refs[1..], st, data, k - 1);
    }
  }

  /** The meaning of if-any: the section before the 'else' runs if some argument has a value that is
      not empty, and the section after it if all are empty. The arguments are read in order, up to
      the first that is not empty, and one that cannot be read stops the run. */
  lemma IfAnyRuns(args: seq<string>, t: seq<Token>, f: seq<Token>, names: Names, printer: Printer, onTrue: seq<Step>,
                  body: seq<Step>, st: State, data: Data, k: nat)
    returns (p: seq<Step>)
    requires RefArgs(args) && k <= |args|
    requires Compiles(t, names, printer, onTrue) && Compiles(f, names, printer, body)
    requires forall i :: 0 <= i < k ==>
               ArgValue(args[i], names, st, data).Ok? && IsEmpty(ArgValue(args[i], names, st, data).value)
    ensures Compiles(WithElse(IfAnyWord, args, t, f), names, printer, p)
    ensures k == |args| ==> Run(p, st, data) == Run(body, st, data)
    ensures k < |args| ==>
              var v := ArgValue(args[k], names, st, data);
              && (v.Ok? && !IsEmpty(v.value) ==> Run(p, st, data) == Run(onTrue, st, data))
              && (v.Err? ==> Run(p, st, data) == Outcome(st, Some(v.error)))
  {
    PrepareAllExactly(args, names);
    var refs := PrepareAll(args, names).value;
    p := [Block(IfAny(refs), Present(onTrue), body)];
    ElseBlock(Directive(IfAnyWord, args), t, f, names, printer, Node(IfAny(refs)), onTrue, body);
    forall i | 0 <= i < |args|
      ensures GetPrepared(refs[i], st, data) == ArgValue(args[i], names, st, data)
    {
    }
    AnyRuns(refs, onTrue, body, st, data, k);
  }

  lemma AnyRuns(refs: seq<ValRef>, onTrue: seq<Step>, body: seq<Step>, st: State, data: Data, k: nat)
    requires k <= |refs|
    requires forall i :: 0 <= i < k ==>
               GetPrepared(refs[i], st, data).Ok? && IsEmpty(GetPrepared(refs[i], st, data).value)
    ensures var p := [Block(IfAny(refs), Present(onTrue), body)];
            if k == |refs| then Run(p, st, data) == Run(body, st, data)
            else
              var v := GetPrepared(refs[k], st, data);
              && (v.Ok? && !IsEmpty(v.value) ==> Run(p, st, data) == Run(onTrue, st, data))
              && (v.Err? ==> Run(p, st, data) == Outcome(st, Some(v.error)))
  {
    AnyAt(refs, st, data, k);
    var c := AnyTruthy(refs, st, data, Prepared);
    if c.Ok? {
      ChosenRuns(IfAny(refs), onTrue, body, st, data, c.value);
    } else {
      RunOne(Block(IfAny(refs), Present(onTrue), body), st, data);
    }
  }

  /* ----- numbers ----- */

  function Digit(n: nat): char
    requires n < 10
  {
    "0123456789"[n]
  }

  // A number as it is written.
  function Decimal(n: nat): string {
    if n < 10 then [Digit(n)] else Decimal(n / 10) + [Digit(n % 10)]
  }

  lemma DigitIs(n: nat)
    requires n < 10
    ensures IsDigit(Digit(n)) && Digit(n) as int - '0' as int == n
  {
  }

  lemma {:induction false} DecimalReads(n: nat)
    ensures Decimal(n) != "" && (forall c :: c in Decimal(n) ==> IsDigit(c)) && NatOf(Decimal(n)) == n
  {
    if n < 10 {
      DigitIs(n);
      assert [Digit(n)][..0] == "";
    } else {
      DecimalReads(n / 10);
      DigitIs(n % 10);
      var s := Decimal(n);
      assert s[..|s| - 1] == Decimal(n / 10);
    }
  }

  lemma {:induction false} AllDigits(s: string)
    requires forall c :: c in s ==> IsDigit(c)
    ensures Digits(s) == |s|
  {
    if s != "" {
      AllDigits(s[1..]);
    }
  }

  lemma IntOfDecimal(n: nat)
    ensures IntOf(Decimal(n)) == Some(n)
  {
    DecimalReads(n);
    AllDigits(Decimal(n));
  }

  /* ----- positions in a loop ----- */

  // The words and numbers that say a position, and what they say of the i-th of n items.
  ghost predicate Position(v: string) {
    v == "even" || v == "odd" || v == "first" || v == "last" || exists k: nat :: v == Decimal(k)
  }

  ghost predicate Says(v: string, i: nat, n: nat) {
    if v == "even" then i % 2 == 0
    else if v == "odd" then i % 2 == 1
    else if v == "first" then i == 0
    else if v == "last" then i + 1 == n
    else v == Decimal(i)
  }

  lemma IndexSays(ref: ValRef, v: string, st: State, items: seq<Value>, i: nat)
    requires ref.Ref? && ref.refname in st.forIndex && st.forIndex[ref.refname] == (items, i) && i < |items|
    requires Position(v)
    ensures IndexTest(ref, Some(v), st) == Ok(Says(v, i, |items|))
  {
    if v != "even" && v != "odd" && v != "first" && v != "last" {
      var k: nat :| v == Decimal(k);
      IntOfDecimal(k);
      IntOfDecimal(i);
    }
  }

  /** The meaning of if-index inside a loop: the section is chosen by the position of the current
      item. */
  lemma IfIndexRuns(x: string, v: string, t: seq<Token>, f: seq<Token>, names: Names, printer: Printer,
                    onTrue: seq<Step>, body: seq<Step>, st: State, data: Data, items: seq<Value>, i: nat)
    returns (p: seq<Step>)
    requires RefArg(x) && !Quoted(x) && Position(v)
    requires Compiles(t, names, printer, onTrue) && Compiles(f, names, printer, body)
    requires i < |items| && x in st.forIndex && st.forIndex[x] == (items, i)
    ensures Compiles(WithElse(IfIndexWord, [x, v], t, f), names, printer, p)
    ensures Run(p, st, data) == Run(if Says(v, i, |items|) then onTrue else body, st, data)
  {
    PrepareExactly(x, names);
    var ref := PrepareRef(x, names).value;
    assert ref.refname == x;
    var cmd := IfIndex(ref, Some(v));
    assert Interpret(IfIndexWord, [x, v], names, printer) == Ok(Opens(Node(cmd)));
    p := [Block(cmd, Present(onTrue), body)];
    ElseBlock(Directive(IfIndexWord, [x, v]), t, f, names, printer, Node(cmd), onTrue, body);
    IndexSays(ref, v, st, items, i);
    ChosenRuns(cmd, onTrue, body, st, data, Says(v, i, |items|));
  }

  /* ----- comparing texts ----- */

  // Two characters that are the same, or the same letter in two cases.
  predicate SameLetter(a: char, b: char) {
    || a == b
    || ('A' <= a <= 'Z' && 'a' <= b <= 'z' && b as int - a as int == 32)
    || ('a' <= a <= 'z' && 'A' <= b <= 'Z' && a as int - b as int == 32)
  }

  predicate SameLetters(l: string, r: string) {
    |l| == |r| && forall i :: 0 <= i < |l| ==> SameLetter(l[i], r[i])
  }

  lemma LowerCaseSame(l: string, r: string)
    ensures Ascii.LowerCase(l) == Ascii.LowerCase(r) <==> SameLetters(l, r)
  {
    if Ascii.LowerCase(l) == Ascii.LowerCase(r) {
      assert |Ascii.LowerCase(l)| == |l| && |Ascii.LowerCase(r)| == |r|;
      forall i | 0 <= i < |l|
        ensures SameLetter(l[i], r[i])
      {
        assert Ascii.LowerCase(l)[i] == Ascii.LowerCase(r)[i];
      }
    }
    if SameLetters(l, r) {
      forall i | 0 <= i < |l|
        ensures Ascii.LowerCase(l)[i] == Ascii.LowerCase(r)[i]
      {
        assert SameLetter(l[i], r[i]);
      }
    }
  }

  /** The meaning of is: the section is chosen by whether the two texts are the same letters. */
  lemma IsRuns(a: string, b: string, t: seq<Token>, f: seq<Token>, names: Names, printer: Printer, onTrue: seq<Step>,
               body: seq<Step>, st: State, data: Data, l: string, r: string)
    returns (p: seq<Step>)
    requires RefArg(a) && RefArg(b)
    requires ArgValue(a, names, st, data) == Ok(Str(l)) && ArgValue(b, names, st, data) == Ok(Str(r))
    requires Compiles(t, names, printer, onTrue) && Compiles(f, names, printer, body)
    ensures Compiles(WithElse(IsWord, [a, b], t, f), names, printer, p)
    ensures Run(p, st, data) == Run(if SameLetters(l, r) then onTrue else body, st, data)
  {
    PrepareExactly(a, names);
    PrepareExactly(b, names);
    var cmd := Is(PrepareRef(a, names).value, PrepareRef(b, names).value);
    assert Interpret(IsWord, [a, b], names, printer) == Ok(Opens(Node(cmd)));
    p := [Block(cmd, Present(onTrue), body)];
    ElseBlock(Directive(IsWord, [a, b]), t, f, names, printer, Node(cmd), onTrue, body);
    LowerCaseSame(l, r);
    ChosenRuns(cmd, onTrue, body, st, data, SameLetters(l, r));
  }

  /** A block without 'else' runs its section or nothing. */
  lemma IfWithoutElse(tok: Token, t: seq<Token>, names: Names, printer: Printer, cmd: Command, body: seq<Step>,
                      st: State, data: Data, value: bool)
    requires tok.Directive? && tok.word != ElseWord && tok.word != EndWord
    requires Interpret(tok.word, tok.args, names, printer) == Ok(Opens(Node(cmd)))
    requires (cmd.IfAny? || cmd.IfIndex? || cmd.Is?) && Condition(cmd, st, data, Prepared) == Ok(value)
    requires Compiles(t, names, printer, body)
    ensures Compiles([tok] + (t + [END]), names, printer, [Block(cmd, Absent, body)])
    ensures Run([Block(cmd, Absent, body)], st, data) == if value then Run(body, st, data) else Outcome(st, None)
  {
    SimpleBlock(tok, t, names, printer, Node(cmd), body);
    ChosenRuns(cmd, [], body, st, data, value);
  }

  /* ----- printing several values ----- */

  lemma {:induction false} EscapeConcat(a: string, b: string)
    ensures Escape(a + b) == Escape(a) + Escape(b)
  {
    if a == "" {
      assert a + b == b;
    } else {
      assert (a + b)[1..] == a[1..] + b;
      EscapeConcat(a[1..], b);
    }
  }

  lemma ShownConcat(p: Printer, a: string, b: string)
    ensures Shown(p, a + b) == Shown(p, a) + Shown(p, b)
  {
    EscapeConcat(a, b);
  }

  /** Text without a percent sign is written as it is. */
  lemma {:induction false} SubstituteText(s: string, rest: string, args: seq<Value>, p: Printer)
    requires '%' !in s
    ensures var r := Substitute(rest, args, p); Substitute(s + rest, args, p) == (Shown(p, s) + r.0, r.1)
  {
    if s == "" {
      assert s + rest == rest;
      assert "" + Substitute(rest, args, p).0 == Substitute(rest, args, p).0;
    } else {
      assert s[0] in s;
      assert (s + rest)[0] == s[0] && (s + rest)[1..] == s[1..] + rest;
      SubstituteText(s[1..], rest, args, p);
      ShownConcat(p, [s[0]], s[1..]);
      assert [s[0]] + s[1..] == s;
      var r := Substitute(rest, args, p);
      Regroup(Shown(p, [s[0]]), Shown(p, s[1..]), r.0);
      assert Substitute(s + rest, args, p) == (Shown(p, [s[0]]) + (Shown(p, s[1..]) + r.0), r.1);
    }
  }

  lemma Regroup(a: string, b: string, c: string)
    ensures a + (b + c) == a + b + c
  {
  }

  /** Two percent signs stand for one. */
  lemma SubstitutePercent(rest: string, args: seq<Value>, p: Printer)
    ensures var r := Substitute(rest, args, p); Substitute("%%" + rest, args, p) == (Shown(p, "%") + r.0, r.1)
  {
    var s := "%%" + rest;
    assert s[0] == '%' && s[1] == '%' && s[2..] == rest;
  }

  lemma {:induction false} DigitsThen(d: string, rest: string)
    requires (forall c :: c in d ==> IsDigit(c)) && (rest == "" || !IsDigit(rest[0]))
    ensures Digits(d + rest) == |d|
  {
    if d == "" {
      assert d + rest == rest;
    } else {
      assert (d + rest)[1..] == d[1..] + rest;
      DigitsThen(d[1..], rest);
    }
  }

  /** A percent sign and a number stand for the argument of that number, counted from 0, and for a
      remark if there is none; an argument that is no text stops the writing. */
  lemma SubstituteNumber(n: nat, rest: string, args: seq<Value>, p: Printer)
    requires rest == "" || !IsDigit(rest[0])
    ensures var r, all := Substitute(rest, args, p), Substitute("%" + Decimal(n) + rest, args, p);
            if n >= |args| then all == (Shown(p, "<undef>") + r.0, r.1)
            else if args[n].Str? then all == (Shown(p, args[n].s) + r.0, r.1)
            else all == ("", Some(TypeError))
  {
    var d := Decimal(n);
    var s := "%" + d + rest;
    DecimalReads(n);
    DigitsThen(d, rest);
    assert s[1..] == d + rest && s[0] == '%';
    assert d[0] in d && s[1] == d[0];
    assert (d + rest)[..|d|] == d && s[1 + |d|..] == rest;
  }

  /** Several arguments: the value of the first is a text, in which the values of the others are
      put. */
  lemma PrintSeveralRuns(args: seq<string>, names: Names, printer: Printer, st: State, data: Data, format: string,
                         others: seq<Value>)
    returns (p: seq<Step>)
    requires RefArgs(args) && |args| == |others| + 1 && others != []
    requires ArgValue(args[0], names, st, data) == Ok(Str(format))
    requires forall i :: 0 <= i < |others| ==> ArgValue(args[i + 1], names, st, data) == Ok(others[i])
    ensures Compiles([Directive(PrintWord, args)], names, printer, p)
    ensures var shown := Substitute(format, others, printer);
            Run(p, st, data) == Outcome(st.(out := st.out + shown.0), shown.1)
  {
    PrepareAllExactly(args, names);
    var refs := PrepareAll(args, names).value;
    p := [Print(printer, refs)];
    SingleToken(Directive(PrintWord, args), names, printer, p);
    RunOne(Print(printer, refs), st, data);
    var values := [Str(format)] + others;
    forall i | 0 <= i < |refs|
      ensures GetPrepared(refs[i], st, data) == Ok(values[i])
    {
      assert PrepareRef(args[i], names) == Ok(refs[i]);
    }
    AllValues(refs, values, st, data);
    assert values[1..] == others;
  }

  lemma {:induction false} AllValues(refs: seq<ValRef>, values: seq<Value>, st: State, data: Data)
    requires |refs| == |values| && forall i :: 0 <= i < |refs| ==> GetPrepared(refs[i], st, data) == Ok(values[i])
    ensures GetAll(refs, st, data, Prepared) == Ok(values)
  {
    if refs != [] {
      AllValues(refs[1..], values[1..], st, data);
      assert [values[0]] + values[1..] == values;
    }
  }

  /* ----- words ----- */

  /** The command words. */
  lemma CommandWords()
    ensures WordOf("else") == ElseWord && WordOf("end") == EndWord && WordOf("if-index") == IfIndexWord
    ensures WordOf("for") == ForWord && WordOf("is") == IsWord && WordOf("define") == DefineWord
    ensures WordOf("format") == FormatWord && WordOf("include") == IncludeWord && WordOf("if-any") == IfAnyWord
  {
  }

  /** The names that the compiler cannot read: 'arg' followed by a negative number. */
  lemma NegativeArgIs(s: string)
    ensures NegativeArg(s) <==>
            exists d: string :: d != "" && (forall c :: c in d ==> IsDigit(c)) && s == "arg-" + d && NatOf(d) > 0
  {
    if NegativeArg(s) {
      var d := s[4..];
      assert s == "arg-" + d by { assert s[..3] == "arg" && s[..4] == s[..3] + [s[3]]; }
      forall c | c in d
        ensures IsDigit(c)
      {
        var i :| 0 <= i < |d| && d[i] == c;
        assert s[i + 4] == c;
      }
      var i :| 4 <= i < |s| && s[i] != '0';
      assert d[i - 4] != '0';
      Positive(d);
    }
    if d: string :| d != "" && (forall c :: c in d ==> IsDigit(c)) && s == "arg-" + d && NatOf(d) > 0 {
      Positive(d);
      var i :| 0 <= i < |d| && d[i] != '0';
      assert s[i + 4] == d[i] && s[..3] == "arg" && s[3] == '-';
      forall j | 4 <= j < |s|
        ensures '0' <= s[j] <= '9'
      {
        assert s[j] == d[j - 4] && d[j - 4] in d;
      }
    }
  }

  lemma {:induction false} Positive(d: string)
    requires forall c :: c in d ==> IsDigit(c)
    ensures NatOf(d) > 0 <==> exists i :: 0 <= i < |d| && d[i] != '0'
  {
    if d != "" {
      var n := |d| - 1;
      var front := d[..n];
      assert d[n] in d;
      Positive(front);
      if i :| 0 <= i < |d| && d[i] != '0' {
        if i < n {
          assert front[i] == d[i];
        }
      }
      if NatOf(front) > 0 {
        var i :| 0 <= i < |front| && front[i] != '0';
        assert d[i] != '0';
      }
    }
  }
}
