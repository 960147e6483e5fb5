/** `launch_tool` (`clvm_tools/cmds.py`), the body shared by `run` and `brun`,
    with argument parsing, printing, timing and tracing output taken out. It
    reads the input (hex bytes or source text), computes the cost offset,
    then, inside a `try`, picks a backend, runs the program and adjusts the
    cost. A `SyntaxError` in the source text and an `EvalError` inside the
    `try` give the return code -1; every other exception propagates. */
module Launch {
  import opened PyDict
  import opened Casts
  import opened Runtime001
  import opened Cmds

  /** The parsed command line, as far as the modelled steps use it. `traced`
      says a trace hook (`pre_eval_f`) is installed: a symbol table, `-v` or `-t`. */
  datatype Options = Options(
    toolName: string,
    hex: bool,
    pathOrCode: string,
    env: Option<string>,
    maxCost: int,
    showCost: bool,
    strict: bool,
    backend: Option<string>,
    traced: bool)

  /** The arguments of the native `deserialize_and_run_program`. */
  datatype NativeCall = NativeCall(
    program: Atom,
    input: Atom,
    quote: byte,
    apply: byte,
    opcodeNames: seq<(string, Atom)>,
    maxCost: int,
    strict: bool)

  /** The code `launch_tool` calls and this model does not define. */
  datatype Collaborators = Collaborators(
    intToBytes: int -> Atom,                   // clvm.casts.int_to_bytes
    readIr: string -> Result<SExp>,            // ir.reader.read_ir
    assembleFromIr: SExp -> Result<SExp>,      // binutils.assemble_from_ir
    runScript: SExp,                           // the stage's `run` or `brun` script
    runProgram: (SExp, SExp, Option<int>, bool) -> Result<(int, SExp)>,
                                               // the stage's run_program(script, env, max_cost, strict)
    serialize: SExp -> Atom,                   // SExp.as_bin
    deserialize: Atom -> Result<SExp>,         // sexp_from_stream
    native: Option<NativeCall -> Result<(int, Atom)>>)
                                               // clvm_rs.deserialize_and_run_program, when importable

  /** The program input: serialized bytes (hex mode) or an S-expression. */
  datatype Input = Serialized(bytes: Atom) | Parsed(sexp: SExp)

  /** What reading the input gives: the input, a source text that does not
      parse, or another exception. */
  datatype ReadOutcome = Read(input: Input) | SourceRejected(msg: string) | ReadRaised(exc: Exc)

  /** How `launch_tool` ends: it returns normally after printing the cost and
      result, it returns a code, or it raises. */
  datatype Outcome = Finished(cost: int, result: SExp) | ReturnCode(code: int) | Raised(exc: Exc)

  /** The evaluator as `calculate_cost_offset` calls it: default ceiling, not strict. */
  function OffsetRunner(c: Collaborators): (SExp, SExp) -> Result<(int, SExp)>
  {
    (script: SExp, env: SExp) => c.runProgram(script, env, None, false)
  }

  /** Reading the input. Hex mode frames the program and env bytes. Otherwise
      the source text is read (its `SyntaxError` is caught) and assembled, and
      the env, "()" when missing or empty, is read and assembled (its errors
      are not caught); the input is the pair of the two. */
  function ReadInput(o: Options, c: Collaborators): ReadOutcome
  {
    if o.hex then
      match HexFraming(o.pathOrCode, o.env)
      case Ok(bytes) => Read(Serialized(bytes))
      case Err(e) => ReadRaised(e)
    else
      match c.readIr(o.pathOrCode)
      case Err(SyntaxError(msg)) => SourceRejected(msg)
      case Err(e) => ReadRaised(e)
      case Ok(src) =>
        match c.assembleFromIr(src)
        case Err(e) => ReadRaised(e)
        case Ok(program) =>
          match c.readIr(EnvOrDefault(o.env, "()"))
          case Err(e) => ReadRaised(e)
          case Ok(envIr) =>
            match c.assembleFromIr(envIr)
            case Err(e) => ReadRaised(e)
            case Ok(env) => Read(Parsed(Cons(program, env)))
  }

  /** The input as bytes, serializing a parsed one. */
  function InputBytes(c: Collaborators, input: Input): Atom
  {
    match input
    case Serialized(bytes) => bytes
    case Parsed(sexp) => c.serialize(sexp)
  }

  /** The input as an S-expression, deserializing serialized bytes. */
  function InputSExp(c: Collaborators, input: Input): Result<SExp>
  {
    match input
    case Parsed(sexp) => Ok(sexp)
    case Serialized(bytes) => c.deserialize(bytes)
  }

  /** Running the program on the chosen backend, with the clamped ceiling: the
      raw cost and the result. Without the native module, forcing the native
      backend fails on `STRICT_MODE` (a `NameError`) under `--strict`, and on
      calling `None` (a `TypeError`) otherwise. */
  function RunBackend(o: Options, c: Collaborators, input: Input, offset: int): Result<(int, SExp)>
  {
    var maxCost := MaxCost(o.maxCost, offset);
    if UseRust(o.toolName, o.traced, o.backend, c.native.Some?) then
      match NativeQuoteApply(c.intToBytes)
      case Err(e) => Err(e)
      case Ok((quote, apply)) =>
        match c.native
        case None => Err(if o.strict then NameError else TypeError)
        case Some(run) =>
          var call := NativeCall(c.serialize(c.runScript), InputBytes(c, input), quote, apply,
                                 NativeOpcodeNames(c.intToBytes), maxCost, o.strict);
          match run(call)
          case Err(e) => Err(e)
          case Ok((cost, out)) =>
            match c.deserialize(out)
            case Err(e) => Err(e)
            case Ok(result) => Ok((cost, result))
    else
      match InputSExp(c, input)
      case Err(e) => Err(e)
      case Ok(sexp) => c.runProgram(c.runScript, sexp, Some(maxCost), o.strict)
  }

  /** The `try` block: the backend run, then the cost adjustment under `-c`. */
  function Guarded(o: Options, c: Collaborators, input: Input, offset: int): Result<(int, SExp)>
  {
    match RunBackend(o, c, input, offset)
    case Err(e) => Err(e)
    case Ok((cost, result)) => Ok((if o.showCost then ReportedCost(cost, offset) else cost, result))
  }

  /** `launch_tool` after argument parsing. */
  function LaunchOutcome(o: Options, c: Collaborators): Outcome
  {
    match ReadInput(o, c)
    case SourceRejected(_) => ReturnCode(-1)
    case ReadRaised(e) => Raised(e)
    case Read(input) =>
      match CostOffset(OffsetRunner(c), c.runScript)
      case Err(e) => Raised(e)
      case Ok(offset) =>
        match Guarded(o, c, input, offset)
        case Ok((cost, result)) => Finished(cost, result)
        case Err(EvalError(_)) => ReturnCode(-1)
        case Err(e) => Raised(e)
  }

  /** Reading the input, step by step: the env default is filled in and the
      input is kept as bytes (hex mode) or as an S-expression. */
  method ReadStep(o: Options, c: Collaborators) returns (read: ReadOutcome)
    ensures read == ReadInput(o, c)
  {
    var env := o.env;
    if o.hex {
      var program := FromHex(o.pathOrCode);
      if program.Err? {
        return ReadRaised(program.exc);
      }
      if env.None? || env.value == [] {
        env := Some("80");
      }
      var envBytes := FromHex(env.value);
      if envBytes.Err? {
        return ReadRaised(envBytes.exc);
      }
      return Read(Serialized([0xFF] + program.value + envBytes.value));
    }
    var src := c.readIr(o.pathOrCode);
    if src.Err? {
      if src.exc.SyntaxError? {
        return SourceRejected(src.exc.msg);
      }
      return ReadRaised(src.exc);
    }
    var assembled := c.assembleFromIr(src.value);
    if assembled.Err? {
      return ReadRaised(assembled.exc);
    }
    if env.None? || env.value == [] {
      env := Some("()");
    }
    var envIr := c.readIr(env.value);
    if envIr.Err? {
      return ReadRaised(envIr.exc);
    }
    var envSExp := c.assembleFromIr(envIr.value);
    if envSExp.Err? {
      return ReadRaised(envSExp.exc);
    }
    return Read(Parsed(Cons(assembled.value, envSExp.value)));
  }

  /** The backend run, step by step: the input is converted to the form the
      chosen backend takes, and the backend runs with the clamped ceiling. */
  method BackendStep(o: Options, c: Collaborators, input: Input, offset: int) returns (run: Result<(int, SExp)>)
    ensures run == RunBackend(o, c, input, offset)
  {
    var maxCost := MaxCost(o.maxCost, offset);
    if !UseRust(o.toolName, o.traced, o.backend, c.native.Some?) {
      var inputSExp := InputSExp(c, input);
      if inputSExp.Err? {
        return Err(inputSExp.exc);
      }
      return c.runProgram(c.runScript, inputSExp.value, Some(maxCost), o.strict);
    }
    var inputSerialized := InputBytes(c, input);
    var program := c.serialize(c.runScript);
    var names := NativeOpcodeNames(c.intToBytes);
    var quoteApply := NativeQuoteApply(c.intToBytes);
    if quoteApply.Err? {
      return Err(quoteApply.exc);
    }
    if c.native.None? {
      return Err(if o.strict then NameError else TypeError);
    }
    var out := c.native.value(NativeCall(program, inputSerialized, quoteApply.value.0, quoteApply.value.1,
                                         names, maxCost, o.strict));
    if out.Err? {
      return Err(out.exc);
    }
    var result := c.deserialize(out.value.1);
    if result.Err? {
      return Err(result.exc);
    }
    return Ok((out.value.0, result.value));
  }

  /** The `try` block: the backend run, then the cost adjusted in place under `-c`. */
  method TryStep(o: Options, c: Collaborators, input: Input, offset: int) returns (run: Result<(int, SExp)>)
    ensures run == Guarded(o, c, input, offset)
  {
    run := BackendStep(o, c, input, offset);
    if run.Err? {
      return run;
    }
    var cost := run.value.0;
    if o.showCost {
      cost := cost + (if cost > 0 then offset else 0);
    }
    run := Ok((cost, run.value.1));
  }

  /** `launch_tool`: read the input, compute the offset outside the `try`, run
      inside it; `EvalError` becomes the return code -1, anything else is
      re-raised. */
  method LaunchTool(o: Options, c: Collaborators) returns (r: Outcome)
    ensures r == LaunchOutcome(o, c)
  {
    var read := ReadStep(o, c);
    if read.SourceRejected? {
      return ReturnCode(-1);
    }
    if read.ReadRaised? {
      return Raised(read.exc);
    }
    var costOffset := CostOffset(OffsetRunner(c), c.runScript);
    if costOffset.Err? {
      return Raised(costOffset.exc);
    }
    var run := TryStep(o, c, read.input, costOffset.value);
    if run.Ok? {
      return Finished(run.value.0, run.value.1);
    }
    if run.exc.EvalError? {
      return ReturnCode(-1);
    }
    return Raised(run.exc);
  }

  // ------------------------------------------------------------ properties

  /** The only return code is -1, and it comes from exactly two places: source
      text that does not parse, or an `EvalError` inside the `try`. */
  lemma ReturnCodeCases(o: Options, c: Collaborators)
    ensures LaunchOutcome(o, c).ReturnCode? ==> LaunchOutcome(o, c).code == -1
    ensures LaunchOutcome(o, c).ReturnCode? <==>
      ReadInput(o, c).SourceRejected? ||
      (ReadInput(o, c).Read? && CostOffset(OffsetRunner(c), c.runScript).Ok? &&
       Guarded(o, c, ReadInput(o, c).input, CostOffset(OffsetRunner(c), c.runScript).value).Err? &&
       Guarded(o, c, ReadInput(o, c).input, CostOffset(OffsetRunner(c), c.runScript).value).exc.EvalError?)
  {
  }

  /** Only a `SyntaxError` from reading the source text is caught: the same
      error from the env text, and any error from assembling, propagates. */
  lemma SourceSyntaxErrorOnly(o: Options, c: Collaborators, msg: string)
    requires !o.hex
    ensures c.readIr(o.pathOrCode) == Err(SyntaxError(msg)) ==> LaunchOutcome(o, c) == ReturnCode(-1)
    ensures (c.readIr(o.pathOrCode).Ok? && c.assembleFromIr(c.readIr(o.pathOrCode).value).Ok? &&
             c.readIr(EnvOrDefault(o.env, "()")) == Err(SyntaxError(msg))) ==>
      LaunchOutcome(o, c) == Raised(SyntaxError(msg))
  {
  }

  /** Exceptions outside the `try` propagate, an `EvalError` from the cost
      offset run included; inside it, everything but `EvalError` is re-raised. */
  lemma OtherExceptionsPropagate(o: Options, c: Collaborators)
    ensures ReadInput(o, c).ReadRaised? ==> LaunchOutcome(o, c) == Raised(ReadInput(o, c).exc)
    ensures ReadInput(o, c).Read? && CostOffset(OffsetRunner(c), c.runScript).Err? ==>
      LaunchOutcome(o, c) == Raised(CostOffset(OffsetRunner(c), c.runScript).exc)
    ensures (ReadInput(o, c).Read? && CostOffset(OffsetRunner(c), c.runScript).Ok? &&
             Guarded(o, c, ReadInput(o, c).input, CostOffset(OffsetRunner(c), c.runScript).value).Err? &&
             !Guarded(o, c, ReadInput(o, c).input, CostOffset(OffsetRunner(c), c.runScript).value).exc.EvalError?) ==>
      LaunchOutcome(o, c) == Raised(Guarded(o, c, ReadInput(o, c).input, CostOffset(OffsetRunner(c), c.runScript).value).exc)
  {
  }

  /** In hex mode a missing env is read as the nil byte. */
  lemma HexInput(o: Options, c: Collaborators, program: Atom)
    requires o.hex && o.pathOrCode == ToHex(program) && o.env.None?
    ensures ReadInput(o, c) == Read(Serialized([0xFF] + program + [0x80]))
  {
    HexFramingOfHex(program, []);
  }

  /** In hex mode the only exception reading the input can raise is
      `ValueError`, from a malformed program or env. */
  lemma HexInputErrors(o: Options, c: Collaborators)
    requires o.hex
    ensures !ReadInput(o, c).SourceRejected?
    ensures ReadInput(o, c).ReadRaised? ==> ReadInput(o, c).exc == ValueError
  {
    FromHexErrors(o.pathOrCode);
    FromHexErrors(EnvOrDefault(o.env, "80"));
  }

  /** The printed cost: the backend's raw cost, plus the offset when `-c` is
      given and the raw cost is positive. */
  lemma FinishedCost(o: Options, c: Collaborators, input: Input, offset: int)
    requires ReadInput(o, c) == Read(input) && CostOffset(OffsetRunner(c), c.runScript) == Ok(offset)
    requires LaunchOutcome(o, c).Finished?
    ensures RunBackend(o, c, input, offset).Ok?
    ensures LaunchOutcome(o, c).result == RunBackend(o, c, input, offset).value.1
    ensures !o.showCost ==> LaunchOutcome(o, c).cost == RunBackend(o, c, input, offset).value.0
    ensures o.showCost && RunBackend(o, c, input, offset).value.0 > 0 ==>
      LaunchOutcome(o, c).cost == RunBackend(o, c, input, offset).value.0 + offset
    ensures o.showCost && RunBackend(o, c, input, offset).value.0 <= 0 ==>
      LaunchOutcome(o, c).cost == RunBackend(o, c, input, offset).value.0
  {
  }

  /** The native backend is called with the serialized script and input, the
      first bytes of the atoms of opcodes 1 and 3 as quote and apply, the
      16-entry opcode-name table, the clamped non-negative ceiling and the
      strict flag. */
  lemma NativeBackendCall(o: Options, c: Collaborators, input: Input, offset: int)
    requires CastsAssumptions(c.intToBytes)
    requires UseRust(o.toolName, o.traced, o.backend, c.native.Some?) && c.native.Some?
    ensures
      var call := NativeCall(c.serialize(c.runScript), InputBytes(c, input),
                             c.intToBytes(1)[0], c.intToBytes(3)[0],
                             NativeOpcodeNames(c.intToBytes), MaxCost(o.maxCost, offset), o.strict);
      && |call.opcodeNames| == 16
      && call.maxCost >= 0
      && RunBackend(o, c, input, offset) ==
        match c.native.value(call)
        case Err(e) => Err(e)
        case Ok((cost, out)) =>
          match c.deserialize(out)
          case Err(e) => Err(e)
          case Ok(result) => Ok((cost, result))
  {
    NativeQuoteApplyBytes(c.intToBytes);
    NativeOpcodeNamesEntries(c.intToBytes);
    MaxCostBounds(o.maxCost, offset);
  }

  /** Forcing the native backend without the native module raises instead of
      falling back to the evaluator. */
  lemma ForcedNativeMissing(o: Options, c: Collaborators, input: Input, offset: int)
    requires CastsAssumptions(c.intToBytes)
    requires o.toolName != "run" && !o.traced && o.backend == Some("rust") && c.native.None?
    ensures RunBackend(o, c, input, offset) == Err(if o.strict then NameError else TypeError)
  {
    NativeQuoteApplyBytes(c.intToBytes);
  }

  /** The evaluator is called with the clamped non-negative ceiling whenever the
      native backend is not chosen, `run` always among those cases. */
  lemma EvaluatorCall(o: Options, c: Collaborators, input: Input, offset: int)
    requires !UseRust(o.toolName, o.traced, o.backend, c.native.Some?) || o.toolName == "run"
    ensures InputSExp(c, input).Ok? ==>
      RunBackend(o, c, input, offset) ==
      c.runProgram(c.runScript, InputSExp(c, input).value, Some(MaxCost(o.maxCost, offset)), o.strict)
    ensures InputSExp(c, input).Err? ==> RunBackend(o, c, input, offset) == Err(InputSExp(c, input).exc)
    ensures MaxCost(o.maxCost, offset) >= 0
  {
    MaxCostBounds(o.maxCost, offset);
  }
}
