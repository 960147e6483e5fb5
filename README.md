# clvm operator tables and the `brun`/`run` launcher, in Dafny

This project models two parts of the Chia Lisp VM tooling.

The first is the operator-table construction of the clvm runtime
(`clvm/runtime_001.py`):

- the 20 keywords, whose list positions are their opcodes;
- `KEYWORD_FROM_ATOM`, which maps an opcode atom to its keyword;
- `KEYWORD_TO_ATOM`, which maps a keyword to its opcode atom;
- the `OP_REWRITE` rename table;
- the quote, eval and apply atoms handed to the reducer;
- the `to_atom` and `as_int` glue of the S-expression mixin.

The second is the launcher that `run` and `brun` share (`clvm_tools/cmds.py`):

- the cost "tare" offset, the clamped cost ceiling and the reported cost;
- the choice between the native and the Python backend;
- hex framing of the input, `0xFF ‖ program ‖ env`;
- the filtered native opcode-name table;
- the quote and apply bytes given to the native backend;
- the return code of `launch_tool`.

Files:

- `pydict.dfy` (module `PyDict`): Python's insertion-ordered `dict` as a list
  of entries with distinct keys. An assignment overwrites an existing key in
  place and appends a new one. `dict(pairs)` and dict comprehensions insert
  pair by pair, so for a repeated key the last value wins, at the position of
  the first.
- `casts.dfy` (module `Casts`): bytes and atoms, plus one reference definition
  of `int_to_bytes` and `int_from_bytes`: minimal big-endian two's complement,
  with 0 as the empty atom. `int_from_bytes` is proved to undo
  `int_to_bytes` for every integer (the converse holds only for minimal atoms).
- `runtime.dfy` (module `Runtime001`): the keyword tables, `OP_REWRITE`, the
  reducer atoms, `to_atom` and `as_int`.
- `cmds.dfy` (module `Cmds`): the pure computations of the launcher.
- `launch.dfy` (module `Launch`): `launch_tool` as imperative methods, each
  proved equal to a specification function, and the properties of those
  functions.

`int_to_bytes` and `int_from_bytes` live in `clvm/casts.py`, which is not part
of this model. The tables are therefore stated for any conversion function
`intToBytes`. The model assumes exactly two things about it, in
`Runtime001.CastsAssumptions`:

- distinct opcodes 0..19 get distinct atoms;
- every integer ≥ 1 becomes a non-empty atom.

These are assumptions about code this model does not show.
`Runtime001.ReferenceCastsMeetAssumptions` proves that the reference casts meet
them.

Evaluators, readers, serializers and the native backend enter `launch_tool`
as function parameters, in `Launch.Collaborators`.

Behaviour the proofs bring out:

- **`KEYWORD_TO_ATOM` has 19 entries, not 20.** `"."` sits at positions 0 and
  15. The later insertion overwrites, so `KEYWORD_TO_ATOM["."]` is the atom of
  15. The atom-to-keyword-to-atom round trip therefore fails for opcode 0 alone.
- **The native table has 16 entries** (with the keyword list of
  `clvm/runtime_001.py`). It drops every keyword that occurs in
  the string `"qa."` as a substring (Python's `in` on a `str`): `"."` twice,
  `"q"` and `"a"`.
- **Forcing `--backend rust` without the native module raises.** It does not
  fall back to the Python backend. It raises `TypeError` (calling `None`), or
  `NameError` for the missing `STRICT_MODE` under `--strict`.
- **A small `--max-cost` means no ceiling at all.** The ceiling handed to
  the evaluator is the request less the cost offset, clamped at 0, and 0 is
  the value `--max-cost 0` passes on for "no ceiling". So any non-zero request
  at or below the offset (a negative one included) runs without a limit
  (`Cmds.SmallCeilingIsNoCeiling`). This is read off the code; nothing was
  executed.
- **Only one `SyntaxError` becomes -1.** It must come from the source text. A
  `SyntaxError` from the env text propagates, and so does any error from
  `calculate_cost_offset`, an `EvalError` included: both happen outside the
  `try`.

## Model

| member | source | states |
|---|---|---|
| PyDict.Put | clvm/runtime_001.py:27-28 | assigning to a dict key keeps the key order (appending a new key), makes the key read back as the value, and keeps the keys distinct |
| PyDict.GetFromPairs | clvm/runtime_001.py:27-28 | `dict(pairs)[k]` is the value of the LAST pair with key `k` |
| PyDict.FromPairsDistinct | clvm/runtime_001.py:30-42 | a pair list without repeated keys is kept exactly as written by `dict` |
| Casts.IntToBytes | clvm/runtime_001.py:5 | the reference `int_to_bytes` maps exactly 0 to the empty atom and maps 1..127 to one byte |
| Casts.IntRoundTrip | clvm/runtime_001.py:5 | the reference `int_from_bytes` undoes the reference `int_to_bytes` for every integer |
| Runtime001.ReferenceCastsMeetAssumptions | clvm/runtime_001.py:27 | the reference casts meet both assumptions the tables rely on |
| Runtime001.KeywordsRepeatOnlyDot | clvm/runtime_001.py:25 | the only repeated keyword is "." at positions 0 and 15 |
| Runtime001.KeywordFromAtomDense | clvm/runtime_001.py:25-27 | `KEYWORD_FROM_ATOM` has 20 entries and maps the atom of each opcode `i` to `KEYWORDS[i]` |
| Runtime001.LastPosition | clvm/runtime_001.py:25-28 | the position whose atom a keyword keeps is a position of that keyword with none after it |
| Runtime001.KeywordToAtomAt | clvm/runtime_001.py:27-28 | `KEYWORD_TO_ATOM[KEYWORDS[i]]` is the atom of that keyword's last position |
| Runtime001.KeywordToAtomLookup | clvm/runtime_001.py:27-28 | every keyword maps to the atom of its last position; "." maps to the atom of 15; a non-keyword has no entry |
| Runtime001.KeywordToAtomEntries | clvm/runtime_001.py:25-28 | `KEYWORD_TO_ATOM` is exactly 19 entries: "." first holding the atom of 15, then keywords 1..14 and 16..19 |
| Runtime001.KeywordRoundTrip | clvm/runtime_001.py:27-28 | `KEYWORD_FROM_ATOM[KEYWORD_TO_ATOM[v]] == v` for every keyword `v` |
| Runtime001.AtomRoundTrip | clvm/runtime_001.py:27-28 | `KEYWORD_TO_ATOM[KEYWORD_FROM_ATOM[a]] == a` for the atom of every opcode but 0, which comes back as the distinct atom of 15 |
| Runtime001.ReducerAtomsAreOneTwoThree | clvm/runtime_001.py:49-50 | the reducer gets the atoms of opcodes 1, 2 and 3, which are pairwise distinct, and the quote and apply atoms are non-empty |
| Runtime001.RewriteTable | clvm/runtime_001.py:30-42 | `OP_REWRITE` has no repeated symbol, so the dict is its 11 entries as written and each symbol looks up its own name |
| Runtime001.RewriteOther | clvm_tools/cmds.py:254 | `OP_REWRITE.get(k, k)` leaves a string that is not a rename symbol unchanged |
| Runtime001.RewritePosition | clvm/runtime_001.py:30-42 | where each keyword sits in the rename table, or that it is absent from it |
| Runtime001.RewriteKeywordAt | clvm_tools/cmds.py:254 | `OP_REWRITE.get(k, k)` of keyword `i` is its operator name |
| Runtime001.RewriteKeywords | clvm_tools/cmds.py:254 | the operator name of every keyword |
| Runtime001.RenameTargetLiterals | clvm/runtime_001.py:25-42 | rename targets are pairwise distinct and never equal a keyword; "/" is not a keyword |
| Runtime001.KeywordNameLiterals | clvm/runtime_001.py:25-42 | "divide" is no keyword's name, and keywords with the same name are the same keyword |
| Runtime001.RewriteTargetsDistinct | clvm/runtime_001.py:25-42 | renaming never reaches "divide" through the keyword list and keeps distinct keywords distinct |
| Runtime001.ToAtom | clvm/runtime_001.py:13-16 | `to_atom` turns an int (or bool) into `int_to_bytes` of it and returns every other value unchanged |
| Runtime001.AsInt | clvm/runtime_001.py:18-19 | `as_int` gives an integer exactly for an atom, namely `int_from_bytes` of its bytes |
| Runtime001.ToAtomIdempotent | clvm/runtime_001.py:13-16 | applying `to_atom` twice is applying it once |
| Runtime001.AsIntToAtomRoundTrip | clvm/runtime_001.py:13-19 | with the reference casts, `as_int` of the atom `to_atom` makes from `n` is `n` |
| Cmds.CostOffset | clvm_tools/cmds.py:107-120 | the offset plus the cost of the boilerplate run on `(nil . nil)` is 53; an error from that run propagates unchanged |
| Cmds.MaxCostBounds | clvm_tools/cmds.py:242 | the effective ceiling is never negative; it is 0 for `--max-cost 0`, the requested ceiling less the offset when that is not negative, and 0 otherwise |
| Cmds.SmallCeilingIsNoCeiling | clvm_tools/cmds.py:242 | a non-zero requested ceiling at or below the offset becomes 0, the same value `--max-cost 0` gives, i.e. no ceiling |
| Cmds.CeilingMatchesReport | clvm_tools/cmds.py:277-278 | for a positive raw cost and a requested ceiling above the offset, the effective ceiling is a positive limit and the raw cost is within it exactly when the reported cost is within the requested one |
| Cmds.ReportedCostShift | clvm_tools/cmds.py:277-278 | a raw cost of 0 is reported unchanged; a positive raw cost `c` is reported as `c - boilerplate + 53` |
| Cmds.ReportedCostOfBoilerplate | clvm_tools/cmds.py:118-120 | a run that costs as much as the boilerplate run is reported as costing 53 |
| Cmds.UseRustCases | clvm_tools/cmds.py:234-241 | the native backend is never used for `run`, under a trace hook or with `--backend python`; it is always used for a traced-free non-`run` tool with `--backend rust`; with no backend given, it is used exactly when the module is present |
| Cmds.FromHexErrors | clvm_tools/cmds.py:191 | `bytes.fromhex` fails only with `ValueError` |
| Cmds.HexDigit | clvm_tools/cmds.py:191 | the digit written for a value below 16 is read back as that value |
| Cmds.HexRoundTrip | clvm_tools/cmds.py:191 | `bytes.fromhex` reads back the hex text of any byte string as that byte string |
| Cmds.EnvOrDefault | clvm_tools/cmds.py:192-193 | a missing or empty env becomes the default, any other env is kept |
| Cmds.HexFraming | clvm_tools/cmds.py:190-197 | the input is 0xFF, then the program bytes, then the env bytes; a malformed program fails first, then a malformed env |
| Cmds.HexFramingOfHex | clvm_tools/cmds.py:190-197 | for hex-encoded program and env the input is `0xFF ‖ program ‖ env`; a missing or empty env gives the byte 0x80, and the input is then 2 + \|program\| bytes long |
| Cmds.NativeItemsKept | clvm_tools/cmds.py:253-257 | the generator yields the entries of exactly the kept items, in item order |
| Cmds.DroppedKeywords | clvm_tools/cmds.py:256 | a keyword occurs in "qa." exactly when it is at position 0, 1, 3 or 15 |
| Cmds.NativeOpcodeNamesEntries | clvm_tools/cmds.py:253-257 | the native table is 16 entries in opcode order, each `"op_" + name` mapped to that keyword's atom |
| Cmds.NativeOpcodeLookup | clvm_tools/cmds.py:253-257 | looking up `"op_" + OP_REWRITE.get(k, k)` gives the atom of `k` exactly when `k` does not occur in "qa.", and nothing otherwise |
| Cmds.NativeQuoteApplyBytes | clvm_tools/cmds.py:261-262 | the quote and apply opcodes are the first bytes of the atoms of opcodes 1 and 3 |
| Cmds.NativeQuoteApplyReference | clvm_tools/cmds.py:261-262 | with the reference casts they are the bytes 1 and 3 |
| Launch.ReadStep | clvm_tools/cmds.py:190-213 | reading the input step by step, with the env default filled in, gives `ReadInput` |
| Launch.BackendStep | clvm_tools/cmds.py:243-276 | the backend run step by step, with the input converted for the chosen backend, gives `RunBackend` |
| Launch.TryStep | clvm_tools/cmds.py:231-278 | the `try` block with the in-place cost adjustment gives `Guarded` |
| Launch.LaunchTool | clvm_tools/cmds.py:123-300 | `launch_tool` step by step gives `LaunchOutcome` |
| Launch.ReturnCodeCases | clvm_tools/cmds.py:294-297 | the only return code is -1, and it occurs exactly when the source text does not parse or an `EvalError` is raised inside the `try` |
| Launch.SourceSyntaxErrorOnly | clvm_tools/cmds.py:200-210 | a `SyntaxError` in the source text gives -1, while the same error in the env text is raised |
| Launch.OtherExceptionsPropagate | clvm_tools/cmds.py:298-300 | errors while reading the input and errors from the offset run propagate, and inside the `try` every exception but `EvalError` is re-raised unchanged |
| Launch.HexInput | clvm_tools/cmds.py:190-197 | in hex mode without an env, the input is `0xFF ‖ program ‖ 0x80` |
| Launch.HexInputErrors | clvm_tools/cmds.py:190-197 | in hex mode reading the input never gives -1 and can raise only `ValueError` |
| Launch.FinishedCost | clvm_tools/cmds.py:277-278 | the printed cost is the backend's raw cost, plus the offset under `-c` when the raw cost is positive, and the result is the backend's result |
| Launch.NativeBackendCall | clvm_tools/cmds.py:253-266 | the native backend gets the serialized script and input, the first bytes of the atoms of 1 and 3, the 16-entry name table, the non-negative clamped ceiling and the strict flag |
| Launch.ForcedNativeMissing | clvm_tools/cmds.py:258-265 | `--backend rust` without the native module raises `NameError` under `--strict` and `TypeError` otherwise |
| Launch.EvaluatorCall | clvm_tools/cmds.py:269-276 | otherwise the Python evaluator runs the parsed input with the non-negative clamped ceiling and the strict flag |

## Left out

- Argument parsing, reading files and stdin (`path_or_code`, `call_tool`, `opc`, `opd`, `read_ir`), printing and `time.perf_counter`: these are I/O and wall-clock effects. `Launch.Options` stands for the parsed arguments.
- The output text (`-d` dump, `--quiet`, disassembly under `-n`) and the trace tables: the model assumes that building the output raises nothing.
- Loading the symbol table and the trace hook itself: only the fact that a hook is installed (`Options.traced`) is modelled. The model does not pass `pre_eval_f` to `run_program`.
- `stage_import`, `importlib` and `run_program_for_search_paths`: dynamic module loading. The stage's script and evaluator are parameters.
- `clvm_rs.deserialize_and_run_program`, the evaluator, `sexp_from_stream`/`as_bin`, `reader.read_ir` and `binutils.assemble_from_ir`: they are not part of this model. They are parameters, and the model states only the arguments they receive and how their results and exceptions are used.
- `binutils.assemble("0")`: it is not part of this model and is taken to give the nil atom.
- `clvm/operators.py` and the `clvm` package's `__init__`: they are not part of this model. `cmds.py` imports `OP_REWRITE` from the former (cmds.py:12) and `KEYWORD_FROM_ATOM` and `KEYWORD_TO_ATOM` from the latter (cmds.py:9), and uses them for the native table and the quote and apply bytes (cmds.py:254-255, 261-262). The model takes all three to be the tables of `clvm/runtime_001.py`; the 16-entry native table holds for that keyword list.
- `clvm/casts.py`: it is not part of this model. `int_to_bytes` and `int_from_bytes` are parameters, constrained only by `Runtime001.CastsAssumptions`. `Casts` gives one reference definition that meets those assumptions.
- `OPERATOR_LOOKUP`, `operators_for_module`, `core_ops`/`more_ops` and `make_reduce_f` itself: they are not part of this model. Only the three atoms given to `make_reduce_f` are modelled.
- `subclass_sexp`, `to_sexp_f` and `opacity.Var`: `Runtime001.SExp` has only atoms and pairs, and `Runtime001.PyValue` stands for the values `to_atom` receives.
- `sys.setrecursionlimit`: a runtime setting, not behaviour.
