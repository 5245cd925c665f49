/** The decoding loop over a function body (src/code.rs, `read_code`): it follows a depth counter
    through a flat stream of instructions, and accepts exactly the streams that are a structured
    sequence, in the order the compiler sees it. */
module Bodies {
  import opened Values
  import opened Ir
  import opened Wasm
  import opened Text
  import opened Frames
  import opened Typing

  /** What the decoder meets: instructions without a body, and the brackets of the others. */
  datatype Token = Op(op: Op) | Block(rt: ResultType) | Loop(rt: ResultType) | If(rt: ResultType) | Else | End

  /** The stream of a structured sequence, followed by `rest`. */
  function Stream(code: Code, rest: seq<Token>): seq<Token>
    decreases code
  {
    match code
    case Done => rest
    case Plain(op, next) => [Token.Op(op)] + Stream(next, rest)
    case Block(rt, body, next) => [Token.Block(rt)] + Stream(body, [End] + Stream(next, rest))
    case Loop(rt, body, next) => [Token.Loop(rt)] + Stream(body, [End] + Stream(next, rest))
    case If(rt, thn, next) => [Token.If(rt)] + Stream(thn, [End] + Stream(next, rest))
    case IfElse(rt, thn, els, next) =>
      [Token.If(rt)] + Stream(thn, [Else] + Stream(els, [End] + Stream(next, rest)))
  }

  /** One instruction of the loop, other than the closing `end`. */
  function Visit(c: Context, st: State, t: Token): Result<State, Error> {
    match t
    case Op(op) => CompileOp(c, st, op)
    case Block(rt) => EnterBlock(c, st, rt)
    case Loop(rt) => EnterLoop(c, st, rt)
    case If(rt) => EnterIf(c, st, rt)
    case Else => Text.Else(c, st)
    case End => ExitBlock(c, st)
  }

  function DepthAfter(t: Token, depth: nat): nat
    requires t.End? ==> depth > 0
  {
    if t.Block? || t.Loop? || t.If? then depth + 1 else if t.End? then depth - 1 else depth
  }

  /** The loop: what is left of the stream after the closing `end`, or an error. */
  function ReadCode(c: Context, st: State, depth: nat, tokens: seq<Token>): Result<(State, seq<Token>), Error>
    decreases |tokens|
  {
    if tokens == [] then Err(Eof)
    else if tokens[0].End? && depth == 0 then
      var st1 :- Finish(c, st);
      Ok((st1, tokens[1..]))
    else
      var st1 :- Visit(c, st, tokens[0]);
      ReadCode(c, st1, DepthAfter(tokens[0], depth), tokens[1..])
  }

  // ----- parsing -----

  datatype Parsed = Parsed(code: Code, rest: seq<Token>) | Broken

  /** The longest structured sequence at the front of a stream; what is left starts with an unmatched
      `end` or `else`, or is empty. `Broken` marks brackets that do not match. */
  function Parse(tokens: seq<Token>): (p: Parsed)
    ensures p.Parsed? ==> |p.rest| <= |tokens| && (p.rest == [] || p.rest[0].Else? || p.rest[0].End?)
    decreases |tokens|
  {
    if tokens == [] || tokens[0].Else? || tokens[0].End? then Parsed(Done, tokens)
    else if tokens[0].Op? then
      var p := Parse(tokens[1..]);
      if p.Broken? then Broken else Parsed(Plain(tokens[0].op, p.code), p.rest)
    else
      var b := Parse(tokens[1..]);
      if b.Broken? || b.rest == [] then Broken
      else if b.rest[0].End? then Close(tokens[0], b.code, Parse(b.rest[1..]))
      else if !tokens[0].If? then Broken
      else
        var e := Parse(b.rest[1..]);
        if e.Broken? || e.rest == [] || e.rest[0].Else? then Broken
        else CloseElse(tokens[0].rt, b.code, e.code, Parse(e.rest[1..]))
  }

  function Close(t: Token, body: Code, p: Parsed): Parsed
    requires t.Block? || t.Loop? || t.If?
  {
    if p.Broken? then Broken
    else
      Parsed(if t.Block? then Code.Block(t.rt, body, p.code)
             else if t.Loop? then Code.Loop(t.rt, body, p.code)
             else Code.If(t.rt, body, p.code), p.rest)
  }

  function CloseElse(rt: ResultType, thn: Code, els: Code, p: Parsed): Parsed {
    if p.Broken? then Broken else Parsed(IfElse(rt, thn, els, p.code), p.rest)
  }

  /** Parsing a stream gives the sequence it is the stream of. */
  lemma {:induction false} ParseStreams(tokens: seq<Token>)
    requires Parse(tokens).Parsed?
    ensures tokens == Stream(Parse(tokens).code, Parse(tokens).rest)
    decreases |tokens|
  {
    if tokens == [] || tokens[0].Else? || tokens[0].End? {
    } else {
      ParseStreams(tokens[1..]);
      First(tokens);
      if !tokens[0].Op? {
        var b := Parse(tokens[1..]);
        ParseStreams(b.rest[1..]);
        First(b.rest);
        if b.rest[0].Else? {
          var e := Parse(b.rest[1..]);
          ParseStreams(e.rest[1..]);
          First(e.rest);
        }
      }
    }
  }

  lemma First(tokens: seq<Token>)
    requires tokens != []
    ensures tokens == [tokens[0]] + tokens[1..]
  {
  }

  lemma Behind(t: Token, tokens: seq<Token>)
    ensures ([t] + tokens)[1..] == tokens
  {
  }

  /** The stream of a sequence, closed by an unmatched bracket, parses as that sequence. */
  lemma {:induction false} StreamParses(code: Code, rest: seq<Token>)
    requires rest == [] || rest[0].Else? || rest[0].End?
    ensures Parse(Stream(code, rest)) == Parsed(code, rest)
    decreases code
  {
    match code
    case Done =>
    case Plain(op, next) =>
      StreamParses(next, rest);
      Behind(Token.Op(op), Stream(next, rest));
    case Block(rt, body, next) =>
      StreamParses(next, rest);
      StreamParses(body, [End] + Stream(next, rest));
      CloseParses(Token.Block(rt), body, next, Stream(body, [End] + Stream(next, rest)), Stream(next, rest), rest);
    case Loop(rt, body, next) =>
      StreamParses(next, rest);
      StreamParses(body, [End] + Stream(next, rest));
      CloseParses(Token.Loop(rt), body, next, Stream(body, [End] + Stream(next, rest)), Stream(next, rest), rest);
    case If(rt, thn, next) =>
      StreamParses(next, rest);
      StreamParses(thn, [End] + Stream(next, rest));
      CloseParses(Token.If(rt), thn, next, Stream(thn, [End] + Stream(next, rest)), Stream(next, rest), rest);
    case IfElse(rt, thn, els, next) =>
      StreamParses(next, rest);
      var rest2 := [End] + Stream(next, rest);
      StreamParses(els, rest2);
      StreamParses(thn, [Else] + Stream(els, rest2));
      ElseParses(code, Stream(thn, [Else] + Stream(els, rest2)), Stream(els, rest2), Stream(next, rest), rest);
  }

  lemma CloseParses(t: Token, body: Code, next: Code, tokens: seq<Token>, rest1: seq<Token>, rest: seq<Token>)
    requires t.Block? || t.Loop? || t.If?
    requires Parse(tokens) == Parsed(body, [End] + rest1) && Parse(rest1) == Parsed(next, rest)
    ensures Parse([t] + tokens) == Close(t, body, Parsed(next, rest))
  {
    Behind(t, tokens);
    Behind(End, rest1);
  }

  lemma ElseParses(code: Code, tokens: seq<Token>, rest1: seq<Token>, rest2: seq<Token>, rest: seq<Token>)
    requires code.IfElse? && Parse(tokens) == Parsed(code.thn, [Else] + rest1)
    requires Parse(rest1) == Parsed(code.els, [End] + rest2) && Parse(rest2) == Parsed(code.next, rest)
    ensures Parse([Token.If(code.rt)] + tokens) == Parsed(code, rest)
  {
    Behind(Token.If(code.rt), tokens);
    Behind(Else, rest1);
    Behind(End, rest2);
  }

  // ----- the loop follows the structure -----

  /** The loop at the front of a stream compiles the sequence parsed there and goes on behind it. */
  lemma {:induction false} ReadParsed(c: Context, st: State, depth: nat, tokens: seq<Token>)
    requires Parse(tokens).Parsed?
    ensures var p := Parse(tokens);
            ReadCode(c, st, depth, tokens) ==
            (var st' :- Compile(c, st, p.code); ReadCode(c, st', depth, p.rest))
    decreases |tokens|, 1
  {
    hide CompileOp, EnterBlock, EnterLoop, EnterIf, Text.Else, ExitBlock, Finish;
    if tokens == [] || tokens[0].Else? || tokens[0].End? {
    } else if tokens[0].Op? {
      var r := CompileOp(c, st, tokens[0].op);
      if r.Ok? { ReadParsed(c, r.value, depth, tokens[1..]); }
    } else {
      ReadBracket(c, st, depth, tokens);
    }
  }

  lemma {:induction false} ReadBracket(c: Context, st: State, depth: nat, tokens: seq<Token>)
    requires tokens != [] && (tokens[0].Block? || tokens[0].Loop? || tokens[0].If?) && Parse(tokens).Parsed?
    ensures var p := Parse(tokens);
            ReadCode(c, st, depth, tokens) ==
            (var st' :- Compile(c, st, p.code); ReadCode(c, st', depth, p.rest))
    decreases |tokens|, 0
  {
    hide CompileOp, EnterBlock, EnterLoop, EnterIf, Text.Else, ExitBlock, Finish, Compile;
    var b := Parse(tokens[1..]);
    BracketCompiles(c, st, tokens);
    var r := Visit(c, st, tokens[0]);
    if r.Ok? {
      ReadParsed(c, r.value, depth + 1, tokens[1..]);
      var r2 := Compile(c, r.value, b.code);
      if r2.Ok? {
        if b.rest[0].End? {
          ReadClosed(c, r2.value, depth, b.rest);
        } else {
          ReadElse(c, r2.value, depth, b.rest);
        }
      }
    }
  }

  /** Compiling a parsed bracket, in the order of its stream. */
  lemma BracketCompiles(c: Context, st: State, tokens: seq<Token>)
    requires tokens != [] && (tokens[0].Block? || tokens[0].Loop? || tokens[0].If?) && Parse(tokens).Parsed?
    ensures Parse(tokens[1..]).Parsed? && Parse(tokens[1..]).rest != []
    ensures var b := Parse(tokens[1..]);
            if b.rest[0].End? then
              var n := Parse(b.rest[1..]);
              && n.Parsed? && Parse(tokens).rest == n.rest
              && Compile(c, st, Parse(tokens).code) ==
                 (var st1 :- Visit(c, st, tokens[0]); var st2 :- Compile(c, st1, b.code); var st3 :- ExitBlock(c, st2);
                  Compile(c, st3, n.code))
            else
              var e := Parse(b.rest[1..]);
              && b.rest[0].Else? && e.Parsed? && e.rest != [] && e.rest[0].End?
              && var n := Parse(e.rest[1..]);
                 && n.Parsed? && Parse(tokens).rest == n.rest
                 && Compile(c, st, Parse(tokens).code) ==
                    (var st1 :- Visit(c, st, tokens[0]);
                     var st2 :- Compile(c, st1, b.code);
                     var st3 :- Text.Else(c, st2);
                     var st4 :- Compile(c, st3, e.code);
                     var st5 :- ExitBlock(c, st4);
                     Compile(c, st5, n.code))
  {
    hide CompileOp, EnterBlock, EnterLoop, EnterIf, Text.Else, ExitBlock, Finish;
  }

  /** From the `end` of a block on. */
  lemma {:induction false} ReadClosed(c: Context, st2: State, depth: nat, rest: seq<Token>)
    requires rest != [] && rest[0].End? && Parse(rest[1..]).Parsed?
    ensures var p := Parse(rest[1..]);
            ReadCode(c, st2, depth + 1, rest) ==
            (var st3 :- ExitBlock(c, st2); var st' :- Compile(c, st3, p.code); ReadCode(c, st', depth, p.rest))
    decreases |rest|, 0
  {
    hide ExitBlock, Compile;
    if ExitBlock(c, st2).Ok? { ReadParsed(c, ExitBlock(c, st2).value, depth, rest[1..]); }
  }

  /** From the `else` of an if on. */
  lemma {:induction false} ReadElse(c: Context, st2: State, depth: nat, rest: seq<Token>)
    requires rest != [] && rest[0].Else? && Parse(rest[1..]).Parsed?
    requires var e := Parse(rest[1..]); e.rest != [] && e.rest[0].End? && Parse(e.rest[1..]).Parsed?
    ensures var e := Parse(rest[1..]);
            var p := Parse(e.rest[1..]);
            ReadCode(c, st2, depth + 1, rest) ==
            (var st3 :- Text.Else(c, st2); var st4 :- Compile(c, st3, e.code); var st5 :- ExitBlock(c, st4);
             var st' :- Compile(c, st5, p.code); ReadCode(c, st', depth, p.rest))
    decreases |rest|, 0
  {
    hide ExitBlock, Compile, Text.Else;
    if Text.Else(c, st2).Ok? {
      ReadParsed(c, Text.Else(c, st2).value, depth + 1, rest[1..]);
      var e := Parse(rest[1..]);
      var r4 := Compile(c, Text.Else(c, st2).value, e.code);
      if r4.Ok? { ReadClosed(c, r4.value, depth, e.rest); }
    }
  }

  // ----- streams whose brackets do not match -----

  /** The kinds of the open frames do not change while a body is compiled. */
  lemma KindKept(c: Context, st: State, code: Code)
    requires StackOk(st) && Compile(c, st, code).Ok?
    ensures var st' := Compile(c, st, code).value;
            StackOk(st') && StackStep(st, st') && st'.frames != [] && Innermost(st').kind == Innermost(st).kind
  {
    hide StackOk, Compile;
    CompileOk(c, st, code);
  }

  /** `else` is refused unless the innermost frame is an if. */
  lemma ElseRefused(c: Context, st: State)
    requires st.frames != [] && !Innermost(st).kind.If?
    ensures Text.Else(c, st).Err?
  {
    hide SplitTail, DropFrame, Above, JumpOffset, Words32;
  }

  /** Opening a bracket gives a frame of its kind. */
  lemma VisitOpens(c: Context, st: State, t: Token)
    requires StackOk(st) && (t.Block? || t.Loop? || t.If?) && Visit(c, st, t).Ok?
    ensures var st1 := Visit(c, st, t).value;
            && StackOk(st1) && Entered(st, st1, t.rt)
            && (Innermost(st1).kind.If? <==> t.If?)
  {
    hide StackOk, Height, Words32;
    if t.If? {
      EnterIfOk(c, st, t.rt);
    } else {
      EnterOk(c, st, t.rt);
    }
    EnteredOk(st, Visit(c, st, t).value, t.rt);
  }

  /** A stream with unmatched brackets is refused. */
  lemma {:induction false} ReadBroken(c: Context, st: State, depth: nat, tokens: seq<Token>)
    requires Parse(tokens).Broken? && StackOk(st)
    ensures ReadCode(c, st, depth, tokens).Err?
    decreases |tokens|, 2
  {
    hide StackOk, Entered, StackStep, Visit, CompileOp;
    if tokens[0].Op? {
      OpVisits(c, st, tokens[0]);
      if CompileOp(c, st, tokens[0].op).Ok? {
        OpOk(c, st, tokens[0].op);
        ReadBroken(c, CompileOp(c, st, tokens[0].op).value, depth, tokens[1..]);
      }
    } else if Visit(c, st, tokens[0]).Ok? {
      var st1 := Visit(c, st, tokens[0]).value;
      VisitOpens(c, st, tokens[0]);
      if Parse(tokens[1..]).Broken? {
        ReadBroken(c, st1, depth + 1, tokens[1..]);
      } else {
        ReadParsed(c, st1, depth + 1, tokens[1..]);
        if Compile(c, st1, Parse(tokens[1..]).code).Ok? {
          BrokenBehind(c, st, depth, tokens, st1);
        }
      }
    }
  }

  lemma OpVisits(c: Context, st: State, t: Token)
    requires t.Op?
    ensures Visit(c, st, t) == CompileOp(c, st, t.op)
  {
  }

  /** The body parsed; what comes behind it does not match. */
  lemma {:induction false} BrokenBehind(c: Context, st: State, depth: nat, tokens: seq<Token>, st1: State)
    requires StackOk(st) && tokens != [] && Parse(tokens).Broken?
    requires tokens[0].Block? || tokens[0].Loop? || tokens[0].If?
    requires Visit(c, st, tokens[0]) == Result.Ok(st1) && StackOk(st1) && Entered(st, st1, tokens[0].rt)
    requires Innermost(st1).kind.If? <==> tokens[0].If?
    requires Parse(tokens[1..]).Parsed? && Compile(c, st1, Parse(tokens[1..]).code).Ok?
    ensures ReadCode(c, Compile(c, st1, Parse(tokens[1..]).code).value, depth + 1, Parse(tokens[1..]).rest).Err?
    decreases |tokens|, 1
  {
    hide StackOk, Entered, StackStep, Visit, Compile, ExitBlock, Text.Else;
    var b := Parse(tokens[1..]);
    var st2 := Compile(c, st1, b.code).value;
    KindKept(c, st1, b.code);
    if b.rest == [] {
    } else if b.rest[0].End? {
      EndVisits(c, st2, b.rest[0]);
      if ExitBlock(c, st2).Ok? {
        ExitOk(c, st, st1, st2, tokens[0].rt);
        ReadBroken(c, ExitBlock(c, st2).value, depth, b.rest[1..]);
      }
    } else {
      EndVisits(c, st2, b.rest[0]);
      if !tokens[0].If? {
        ElseRefused(c, st2);
      } else if Text.Else(c, st2).Ok? {
        BrokenElse(c, st, depth, b.rest, st1, st2, tokens[0].rt);
      }
    }
  }

  lemma EndVisits(c: Context, st: State, t: Token)
    requires t.End? || t.Else?
    ensures Visit(c, st, t) == (if t.End? then ExitBlock(c, st) else Text.Else(c, st))
  {
  }

  /** The else part, or what comes behind it, does not match. */
  lemma {:induction false} BrokenElse(
    c: Context, st: State, depth: nat, rest: seq<Token>, st1: State, st2: State, rt: ResultType)
    requires StackOk(st) && Entered(st, st1, rt) && StackOk(st2) && StackStep(st1, st2)
    requires rest != [] && rest[0].Else? && Text.Else(c, st2).Ok?
    requires var e := Parse(rest[1..]);
             e.Broken? || e.rest == [] || e.rest[0].Else? || Parse(e.rest[1..]).Broken?
    ensures ReadCode(c, st2, depth + 1, rest).Err?
    decreases |rest|, 3
  {
    hide StackOk, Entered, StackStep, Visit, Compile, ExitBlock, Text.Else;
    EndVisits(c, st2, rest[0]);
    var st3 := Text.Else(c, st2).value;
    ElseOk(c, st, st1, st2, rt);
    ElseKind(c, st, st1, st2, rt);
    var e := Parse(rest[1..]);
    if e.Broken? {
      ReadBroken(c, st3, depth + 1, rest[1..]);
    } else {
      ReadParsed(c, st3, depth + 1, rest[1..]);
      if Compile(c, st3, e.code).Ok? {
        var st4 := Compile(c, st3, e.code).value;
        KindKept(c, st3, e.code);
        if e.rest != [] {
          EndVisits(c, st4, e.rest[0]);
          if e.rest[0].Else? {
            ElseRefused(c, st4);
          } else if ExitBlock(c, st4).Ok? {
            AfterThenOk(st, st1, st2, rt);
            ExitOk(c, AfterThen(st, st2), st3, st4, rt);
            ReadBroken(c, ExitBlock(c, st4).value, depth, e.rest[1..]);
          }
        }
      }
    }
  }

  lemma ElseKind(c: Context, st: State, st1: State, st2: State, rt: ResultType)
    requires StackOk(st) && Entered(st, st1, rt) && StackOk(st2) && StackStep(st1, st2) && Text.Else(c, st2).Ok?
    ensures Text.Else(c, st2).value.frames != [] && Innermost(Text.Else(c, st2).value).kind.Block?
  {
    hide StackOk, Text.Else;
    ElseValues(c, st, st1, st2, rt);
  }

  // ----- function bodies -----

  /** The decoding loop on a function body, and `read_function_code` around it. */
  function ReadFunction(c: Context, code: seq<Word>, tokens: seq<Token>): Result<(Compiled, seq<Token>), Error> {
    var locals := WordLen(GroupTypes(c.groups));
    if locals > 0xFFFF then Err(TooManyLocals)
    else
      var (st1, rest) :- ReadCode(c, Start(c, code), 0, tokens);
      if st1.highwater > 0xFFFF || 2 + locals + st1.highwater > 0xFFFF then Err(StackTooLarge)
      else Ok((Compiled(st1.code, st1.highwater), rest))
  }

  /** The stream of a structured body is read as compiling that body, whatever follows it. */
  lemma StructuredIsRead(c: Context, code: seq<Word>, body: Code, rest: seq<Token>)
    ensures ReadFunction(c, code, Stream(body, [End] + rest)) ==
            (var r :- CompileFunc(c, code, body); Ok((r, rest)))
  {
    hide Compile, Finish, Parse;
    StreamParses(body, [End] + rest);
    ReadParsed(c, Start(c, code), 0, Stream(body, [End] + rest));
    Behind(End, rest);
  }

  /** Only such streams are accepted: a depth counter and the compiler's frames suffice to refuse
      everything that is not a structured body. */
  lemma AcceptedIsStructured(c: Context, code: seq<Word>, tokens: seq<Token>)
    requires ReadFunction(c, code, tokens).Ok?
    ensures var (r, rest) := ReadFunction(c, code, tokens).value;
            exists body :: tokens == Stream(body, [End] + rest) && CompileFunc(c, code, body) == Result.Ok(r)
  {
    hide Compile, Finish, Text.Else;
    var st0 := Start(c, code);
    if Parse(tokens).Broken? {
      ReadBroken(c, st0, 0, tokens);
    } else {
      var p := Parse(tokens);
      ParseStreams(tokens);
      ReadParsed(c, st0, 0, tokens);
      var st := Compile(c, st0, p.code).value;
      KindKept(c, st0, p.code);
      ElseFirst(c, st, p.rest);
      First(p.rest);
      StructuredIsRead(c, code, p.code, p.rest[1..]);
    }
  }

  lemma ElseFirst(c: Context, st: State, rest: seq<Token>)
    requires st.frames != [] && !Innermost(st).kind.If? && ReadCode(c, st, 0, rest).Ok?
    requires rest == [] || rest[0].Else? || rest[0].End?
    ensures rest != [] && rest[0].End?
  {
    hide Text.Else, ExitBlock, Finish;
    if rest != [] && rest[0].Else? { ElseRefused(c, st); }
  }

  // ----- declared functions -----

  /** A function with the signature of its type, the groups of locals as they are read, and the
      instructions within the declared size of its body. */
  datatype Declared = Declared(sig: FuncSig, locals: seq<(nat, ValType)>, tokens: seq<Token>)

  function Groups(locals: seq<(nat, ValType)>): Result<seq<LocalGroup>, Error> {
    if locals == [] then Ok([])
    else if locals[0].0 > 0xFFFF then Err(TooManyLocals)
    else
      var rest :- Groups(locals[1..]);
      Ok([LocalGroup(locals[0].0, locals[0].1)] + rest)
  }

  /** All of `read_function_code`: nothing may be left of the declared body. */
  function ReadDeclared(index: seq<FuncEntry>, options: Options, code: seq<Word>, d: Declared): Result<Func, Error> {
    var groups :- Groups(d.locals);
    var (r, rest) :- ReadFunction(Context(d.sig, groups, index, options), code, d.tokens);
    if rest != [] then Err(MalformedCodeSize) else Ok(Func(d.sig, groups, BodyOf(d.tokens), |code|, r.usage))
  }

  /** The code with an accepted function behind it. */
  function CodeWith(index: seq<FuncEntry>, options: Options, code: seq<Word>, d: Declared): seq<Word>
    requires ReadDeclared(index, options, code, d).Ok?
  {
    ReadFunction(Context(d.sig, Groups(d.locals).value, index, options), code, d.tokens).value.0.code
  }

  /** The code section: all functions of a module, each behind the one before. */
  function ReadAll(index: seq<FuncEntry>, options: Options, code: seq<Word>, decls: seq<Declared>):
    Result<(seq<Word>, seq<Func>), Error>
    decreases |decls|
  {
    if decls == [] then Ok((code, []))
    else
      var f :- ReadDeclared(index, options, code, decls[0]);
      var (code', fs) :- ReadAll(index, options, CodeWith(index, options, code, decls[0]), decls[1..]);
      Ok((code', [f] + fs))
  }

  lemma ManyLocals(c: Context, code: seq<Word>, tokens: seq<Token>)
    ensures WordLen(GroupTypes(c.groups)) > 0xFFFF ==> ReadFunction(c, code, tokens) == Err(TooManyLocals)
  {
    hide ReadCode;
  }

  /** The structured body a stream is read as. */
  function BodyOf(tokens: seq<Token>): Code { if Parse(tokens).Parsed? then Parse(tokens).code else Done }

  /** An accepted function is its structured body, compiled. */
  lemma DeclaredCompiles(index: seq<FuncEntry>, options: Options, code: seq<Word>, d: Declared)
    requires ReadDeclared(index, options, code, d).Ok?
    ensures var f := ReadDeclared(index, options, code, d).value;
            && Groups(d.locals) == Result.Ok(f.groups) && f.sig == d.sig && f.entry == |code|
            && d.tokens == Stream(f.body, [End])
            && var c := Context(f.sig, f.groups, index, options);
               && ReadFunction(c, code, d.tokens).Ok?
               && CompileFunc(c, code, f.body) == Result.Ok(ReadFunction(c, code, d.tokens).value.0)
  {
    hide ReadFunction, CompileFunc, Parse, Groups;
    var c := Context(d.sig, Groups(d.locals).value, index, options);
    AcceptedIsStructured(c, code, d.tokens);
    var none: seq<Token> := [];
    assert [End] + none == [End];
    var body :|
      && d.tokens == Stream(body, [End] + none)
      && CompileFunc(c, code, body) == Result.Ok(ReadFunction(c, code, d.tokens).value.0);
    StreamParses(body, [End]);
  }
}
