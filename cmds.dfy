/** The pure computations of the `brun`/`run` launcher (`clvm_tools/cmds.py`):
    the cost tare, the cost ceiling and the reported cost, the backend choice,
    hex framing of the input, the native opcode-name table, and the return
    code of `launch_tool`. Evaluators, readers and serializers are not part of
    this model; they enter as function parameters. */
module Cmds {
  import opened PyDict
  import opened Casts
  import opened Runtime001

  /** The Python exceptions the launcher distinguishes. */
  datatype Exc =
    | EvalError(msg: string)
    | SyntaxError(msg: string)
    | ValueError
    | TypeError
    | NameError
    | IndexError
    | OtherError(name: string)

  /** A value, or the exception raised while computing it. */
  datatype Result<T> = Ok(value: T) | Err(exc: Exc)

  // ------------------------------------------------------------ costs

  /** The nil atom that `binutils.assemble("0")` produces. */
  const NIL: SExp := Leaf([])

  /** `calculate_cost_offset`: 53 minus the cost of running the boilerplate
      script on `(nil . nil)`; an exception from the run propagates. */
  function CostOffset(runProgram: (SExp, SExp) -> Result<(int, SExp)>, runScript: SExp): (r: Result<int>)
    ensures r.Ok? <==> runProgram(runScript, Cons(NIL, NIL)).Ok?
    ensures r.Err? ==> r.exc == runProgram(runScript, Cons(NIL, NIL)).exc
    ensures r.Ok? ==> r.value + runProgram(runScript, Cons(NIL, NIL)).value.0 == 53
  {
    match runProgram(runScript, Cons(NIL, NIL))
    case Ok((cost, _)) => Ok(53 - cost)
    case Err(e) => Err(e)
  }

  /** The effective ceiling handed to the evaluator: `--max-cost 0` is passed
      on as 0, the no-ceiling value; otherwise the ceiling less the offset,
      clamped at 0 — which is that same no-ceiling value. */
  function MaxCost(maxCost: int, offset: int): (m: int)
  {
    if maxCost != 0 then (if maxCost - offset > 0 then maxCost - offset else 0) else 0
  }

  /** The cost `-c` prints: the offset is added to a positive raw cost only. */
  function ReportedCost(cost: int, offset: int): (c: int)
  {
    cost + (if cost > 0 then offset else 0)
  }

  /** The ceiling is never negative; 0 asks for 0; it is what is left of the
      requested ceiling once the offset is taken off, when that is positive. */
  lemma MaxCostBounds(maxCost: int, offset: int)
    ensures MaxCost(maxCost, offset) >= 0
    ensures maxCost == 0 ==> MaxCost(maxCost, offset) == 0
    ensures maxCost != 0 && maxCost >= offset ==> MaxCost(maxCost, offset) + offset == maxCost
    ensures maxCost != 0 && maxCost < offset ==> MaxCost(maxCost, offset) == 0
  {
  }

  /** A non-zero ceiling at or below the offset (a negative one included) is
      clamped to 0, the value that means no ceiling: such a request runs the
      program without any limit. */
  lemma SmallCeilingIsNoCeiling(maxCost: int, offset: int)
    requires maxCost != 0 && maxCost <= offset
    ensures MaxCost(maxCost, offset) == 0
    ensures maxCost > 0 && offset > 0 ==> MaxCost(maxCost, offset) == MaxCost(0, offset)
  {
  }

  /** The ceiling and the reported cost agree: when a ceiling above the offset
      was asked for, so that the effective ceiling is a real (positive) limit,
      a run whose positive raw cost is within the effective ceiling is exactly
      a run whose reported cost is within the requested one. */
  lemma CeilingMatchesReport(maxCost: int, offset: int, cost: int)
    requires maxCost != 0 && maxCost > offset && cost > 0
    ensures MaxCost(maxCost, offset) > 0
    ensures cost <= MaxCost(maxCost, offset) <==> ReportedCost(cost, offset) <= maxCost
  {
  }

  /** A zero raw cost is reported as it is; a positive one is shifted by the
      offset. With the offset from `calculate_cost_offset`, a run costing
      exactly what the boilerplate run cost is reported as 53. */
  lemma ReportedCostShift(cost: int, boilerplate: int)
    ensures ReportedCost(0, 53 - boilerplate) == 0
    ensures cost > 0 ==> ReportedCost(cost, 53 - boilerplate) == cost - boilerplate + 53
    ensures boilerplate > 0 ==> ReportedCost(boilerplate, 53 - boilerplate) == 53
  {
  }

  /** The reported cost of a run, with the offset computed by
      `calculate_cost_offset` from the same evaluator. */
  lemma ReportedCostOfBoilerplate(runProgram: (SExp, SExp) -> Result<(int, SExp)>, runScript: SExp)
    requires CostOffset(runProgram, runScript).Ok?
    requires runProgram(runScript, Cons(NIL, NIL)).value.0 > 0
    ensures ReportedCost(runProgram(runScript, Cons(NIL, NIL)).value.0, CostOffset(runProgram, runScript).value) == 53
  {
  }

  // ------------------------------------------------------------ backend

  /** `use_rust`: the native backend runs `brun` (not `run`) without a trace
      hook, when `--backend rust` is forced, or when the native module is
      present and `--backend python` is not given. */
  function UseRust(toolName: string, traced: bool, backend: Option<string>, nativePresent: bool): (r: bool)
  {
    toolName != "run" && !traced && (backend == Some("rust") || (nativePresent && backend != Some("python")))
  }

  /** The cases of the backend choice. */
  lemma UseRustCases(toolName: string, traced: bool, backend: Option<string>, nativePresent: bool)
    ensures toolName == "run" ==> !UseRust(toolName, traced, backend, nativePresent)
    ensures traced ==> !UseRust(toolName, traced, backend, nativePresent)
    ensures backend == Some("python") ==> !UseRust(toolName, traced, backend, nativePresent)
    ensures toolName != "run" && !traced && backend == Some("rust") ==> UseRust(toolName, traced, backend, nativePresent)
    ensures toolName != "run" && !traced && backend == None ==> UseRust(toolName, traced, backend, nativePresent) == nativePresent
    ensures !nativePresent && backend != Some("rust") ==> !UseRust(toolName, traced, backend, nativePresent)
  {
  }

  // ------------------------------------------------------------ hex

  /** The whitespace `bytes.fromhex` skips between byte pairs. */
  predicate IsSpace(c: char)
  {
    c == ' ' || c == '\t' || c == '\n' || c == '\r' || c == 11 as char || c == 12 as char
  }

  /** The value of a hexadecimal digit, either case. */
  function HexValue(c: char): Option<byte>
  {
    if '0' <= c <= '9' then Some((c as int - '0' as int) as byte)
    else if 'a' <= c <= 'f' then Some((c as int - 'a' as int + 10) as byte)
    else if 'A' <= c <= 'F' then Some((c as int - 'A' as int + 10) as byte)
    else None
  }

  /** `bytes.fromhex`: pairs of hex digits, the six ASCII whitespace
      characters allowed between pairs but not inside one; anything else, any
      non-ASCII character included, is a `ValueError`. */
  function FromHex(s: string): Result<Atom>
    decreases |s|
  {
    if s == [] then Ok([])
    else if IsSpace(s[0]) then FromHex(s[1..])
    else if |s| >= 2 && HexValue(s[0]).Some? && HexValue(s[1]).Some? then
      match FromHex(s[2..])
      case Ok(rest) => Ok([HexValue(s[0]).value * 16 + HexValue(s[1]).value] + rest)
      case Err(e) => Err(e)
    else Err(ValueError)
  }

  /** `bytes.fromhex` fails only with `ValueError`. */
  lemma {:induction false} FromHexErrors(s: string)
    ensures FromHex(s).Err? ==> FromHex(s).exc == ValueError
    decreases |s|
  {
    if s != [] {
      if IsSpace(s[0]) {
        FromHexErrors(s[1..]);
      } else if |s| >= 2 && HexValue(s[0]).Some? && HexValue(s[1]).Some? {
        FromHexErrors(s[2..]);
      }
    }
  }

  /** The lower-case digit of a value below 16. */
  function HexDigit(d: byte): (c: char)
    requires d < 16
    ensures HexValue(c) == Some(d)
  {
    if d < 10 then ('0' as int + d as int) as char else ('a' as int + d as int - 10) as char
  }

  /** `bytes.hex()`: two lower-case digits per byte. */
  function ToHex(b: Atom): (s: string)
    ensures |s| == 2 * |b|
  {
    if b == [] then [] else [HexDigit(b[0] / 16), HexDigit(b[0] % 16)] + ToHex(b[1..])
  }

  /** Reading back the hex text of a byte string gives the byte string. */
  lemma {:induction false} HexRoundTrip(b: Atom)
    ensures FromHex(ToHex(b)) == Ok(b)
  {
    if b != [] {
      var s := ToHex(b);
      assert s[2..] == ToHex(b[1..]);
      HexRoundTrip(b[1..]);
      assert b == [b[0]] + b[1..];
    }
  }

  /** A missing or empty env argument; Python's `if not args.env`. */
  function EnvOrDefault(env: Option<string>, default: string): (e: string)
    ensures env.Some? && env.value != [] ==> e == env.value
    ensures env.None? || env.value == [] ==> e == default
  {
    match env
    case Some(text) => if text == [] then default else text
    case None => default
  }

  /** Hex mode: the input stream is 0xFF (a pair), the program bytes, then the
      env bytes, env "80" (nil) when none is given. A malformed program is
      reported before the env is read. */
  function HexFraming(program: string, env: Option<string>): (r: Result<Atom>)
    ensures FromHex(program).Err? ==> r == Err(FromHex(program).exc)
    ensures FromHex(program).Ok? && FromHex(EnvOrDefault(env, "80")).Err? ==> r == Err(FromHex(EnvOrDefault(env, "80")).exc)
    ensures r.Ok? ==> FromHex(program).Ok? && FromHex(EnvOrDefault(env, "80")).Ok?
    ensures r.Ok? ==> r.value == [0xFF] + FromHex(program).value + FromHex(EnvOrDefault(env, "80")).value
  {
    match FromHex(program)
    case Err(e) => Err(e)
    case Ok(p) =>
      match FromHex(EnvOrDefault(env, "80"))
      case Err(e) => Err(e)
      case Ok(e) => Ok([0xFF] + p + e)
  }

  /** Framing the hex text of a program and an env: 1 + |program| + |env|
      bytes, the program right after the 0xFF; no env gives the nil byte 0x80. */
  lemma HexFramingOfHex(program: Atom, env: Atom)
    ensures HexFraming(ToHex(program), Some(ToHex(env))) ==
      Ok([0xFF] + program + (if env == [] then [0x80] else env))
    ensures HexFraming(ToHex(program), None) == Ok([0xFF] + program + [0x80])
    ensures |HexFraming(ToHex(program), None).value| == 2 + |program|
  {
    HexRoundTrip(program);
    HexRoundTrip(env);
    HexRoundTrip([0x80]);
    assert ToHex([0x80]) == "80";
  }

  // ------------------------------------------------------------ native table

  /** Python's `k in s` for strings: `k` occurs in `s` as a substring. */
  predicate IsSubstring(needle: string, hay: string)
  {
    exists i, j | 0 <= i <= j <= |hay| :: hay[i..j] == needle
  }

  /** The keywords the native table drops: the ones that occur in "qa.". */
  predicate Dropped(item: (Atom, string))
  {
    IsSubstring(item.1, "qa.")
  }

  /** A kept item of `KEYWORD_FROM_ATOM`, as its entry of the native table. */
  function NativeEntry(item: (Atom, string)): (string, Atom)
  {
    ("op_" + Rewrite(item.1), item.0)
  }

  /** The pairs the native-table generator yields, in `.items()` order. */
  function NativeItems(items: seq<(Atom, string)>): (r: seq<(string, Atom)>)
    ensures |r| <= |items|
  {
    if items == [] then []
    else
      var last := items[|items| - 1];
      NativeItems(items[..|items| - 1]) + (if Dropped(last) then [] else [NativeEntry(last)])
  }

  /** `native_opcode_names_by_opcode`. */
  function NativeOpcodeNames(intToBytes: int -> Atom): seq<(string, Atom)>
  {
    FromPairs(NativeItems(KeywordFromAtom(intToBytes)))
  }

  /** The generator keeps exactly the items at positions `kept`, in order. */
  lemma {:induction false} NativeItemsKept(items: seq<(Atom, string)>, kept: seq<nat>)
    requires forall j :: 0 <= j < |kept| ==> kept[j] < |items|
    requires forall j, k :: 0 <= j < k < |kept| ==> kept[j] < kept[k]
    requires forall i :: 0 <= i < |items| ==> (!Dropped(items[i]) <==> i in kept)
    ensures NativeItems(items) == seq(|kept|, j requires 0 <= j < |kept| => NativeEntry(items[kept[j]]))
    decreases |items|
  {
    if items == [] {
      if kept != [] {
        assert false;
      }
    } else {
      var n := |items| - 1;
      var front := items[..n];
      if Dropped(items[n]) {
        assert n !in kept;
        KeptBelow(kept, n);
        NativeItemsKept(front, kept);
      } else {
        KeptLast(kept, n);
        var m := |kept| - 1;
        var init := kept[..m];
        forall i | 0 <= i < |front| ensures !Dropped(front[i]) <==> i in init {
          assert i in kept <==> i in init || i == kept[m];
        }
        NativeItemsKept(front, init);
        KeptSnoc(items, kept);
      }
    }
  }

  /** The entries at `kept` are the entries at all but its last position,
      then the last one. */
  lemma KeptSnoc(items: seq<(Atom, string)>, kept: seq<nat>)
    requires |items| > 0 && |kept| > 0 && kept[|kept| - 1] == |items| - 1
    requires forall j :: 0 <= j < |kept| - 1 ==> kept[j] < |items| - 1
    ensures seq(|kept|, j requires 0 <= j < |kept| => NativeEntry(items[kept[j]])) ==
      seq(|kept| - 1, j requires 0 <= j < |kept| - 1 => NativeEntry(items[..|items| - 1][kept[..|kept| - 1][j]]))
      + [NativeEntry(items[|items| - 1])]
  {
  }

  /** Increasing positions below `n + 1` that miss `n` are all below `n`. */
  lemma KeptBelow(kept: seq<nat>, n: nat)
    requires forall j :: 0 <= j < |kept| ==> kept[j] < n + 1
    requires n !in kept
    ensures forall j :: 0 <= j < |kept| ==> kept[j] < n
  {
  }

  /** Increasing positions below `n + 1` that hold `n` end with it. */
  lemma KeptLast(kept: seq<nat>, n: nat)
    requires forall j :: 0 <= j < |kept| ==> kept[j] < n + 1
    requires forall j, k :: 0 <= j < k < |kept| ==> kept[j] < kept[k]
    requires n in kept
    ensures |kept| > 0 && kept[|kept| - 1] == n
    ensures forall j :: 0 <= j < |kept| - 1 ==> kept[j] < n
  {
    var m := |kept| - 1;
    var j :| 0 <= j < |kept| && kept[j] == n;
    if j < m {
      assert kept[j] < kept[m];
    }
  }

  /** The positions of the keywords that are not in "qa.": every keyword but
      ".", "q" and "a" (positions 0, 1, 3 and 15). */
  const NATIVE_POSITIONS: seq<nat> := [2, 4, 5, 6, 7, 8, 9, 10, 11, 12, 13, 14, 16, 17, 18, 19]

  /** Which keywords occur in "qa.", read off the literals. */
  lemma DroppedKeywords()
    ensures forall i :: 0 <= i < |KEYWORDS| ==> (IsSubstring(KEYWORDS[i], "qa.") <==> i in {0, 1, 3, 15})
    ensures forall i :: 0 <= i < |KEYWORDS| ==> (i in NATIVE_POSITIONS <==> i !in {0, 1, 3, 15})
  {
    assert "qa."[0..1] == "q";
    assert "qa."[1..2] == "a";
    assert "qa."[2..3] == ".";
  }

  /** The table's names are pairwise distinct: read off the literal name list. */
  lemma NativeNamesDistinct()
    ensures forall j, k :: 0 <= j < k < |NATIVE_POSITIONS| ==>
      KEYWORD_NAMES[NATIVE_POSITIONS[j]] != KEYWORD_NAMES[NATIVE_POSITIONS[k]]
    ensures forall j :: 0 <= j < |NATIVE_POSITIONS| ==> NATIVE_POSITIONS[j] < |KEYWORDS|
    ensures forall j, k :: 0 <= j < k < |NATIVE_POSITIONS| ==> NATIVE_POSITIONS[j] < NATIVE_POSITIONS[k]
  {
  }

  /** Distinct suffixes give distinct "op_" names. */
  lemma OpPrefixInjective(a: string, b: string)
    requires "op_" + a == "op_" + b
    ensures a == b
  {
    assert a == ("op_" + a)[3..];
    assert b == ("op_" + b)[3..];
  }

  /** The native opcode table has 16 entries, in opcode order: for each
      keyword that does not occur in "qa.", its renamed operator prefixed
      with "op_", mapped to its opcode atom. */
  lemma NativeOpcodeNamesEntries(intToBytes: int -> Atom)
    requires CastsAssumptions(intToBytes)
    ensures NativeOpcodeNames(intToBytes) ==
      seq(|NATIVE_POSITIONS|, j requires 0 <= j < |NATIVE_POSITIONS| =>
        ("op_" + KEYWORD_NAMES[NATIVE_POSITIONS[j]], intToBytes(NATIVE_POSITIONS[j])))
    ensures |NativeOpcodeNames(intToBytes)| == 16
  {
    var items := KeywordFromAtom(intToBytes);
    KeywordFromAtomDense(intToBytes);
    DroppedKeywords();
    NativeNamesDistinct();
    NativeItemsKept(items, NATIVE_POSITIONS);
    RewriteKeywords();
    var ps := NativeItems(items);
    assert forall j :: 0 <= j < |ps| ==> ps[j] == ("op_" + KEYWORD_NAMES[NATIVE_POSITIONS[j]], intToBytes(NATIVE_POSITIONS[j]));
    forall j, k | 0 <= j < k < |ps| ensures Keys(ps)[j] != Keys(ps)[k] {
      KeysAt(ps, j);
      KeysAt(ps, k);
      if Keys(ps)[j] == Keys(ps)[k] {
        OpPrefixInjective(KEYWORD_NAMES[NATIVE_POSITIONS[j]], KEYWORD_NAMES[NATIVE_POSITIONS[k]]);
      }
    }
    UniqueByIndex(Keys(ps));
    FromPairsDistinct(ps);
  }

  /** Looking up a keyword's native name gives its opcode atom exactly when the
      keyword does not occur in "qa."; ".", "q" and "a" have no native name. */
  lemma NativeOpcodeLookup(intToBytes: int -> Atom, i: nat)
    requires CastsAssumptions(intToBytes) && i < |KEYWORDS|
    ensures Get(NativeOpcodeNames(intToBytes), "op_" + Rewrite(KEYWORDS[i])) ==
      if IsSubstring(KEYWORDS[i], "qa.") then None else Some(intToBytes(i))
  {
    DroppedKeywords();
    RewriteKeywordAt(i);
    if IsSubstring(KEYWORDS[i], "qa.") {
      NativeLookupDropped(intToBytes, i);
    } else {
      NativeLookupKept(intToBytes, i);
    }
  }

  lemma NativeLookupDropped(intToBytes: int -> Atom, i: nat)
    requires CastsAssumptions(intToBytes) && i in {0, 1, 3, 15}
    ensures Get(NativeOpcodeNames(intToBytes), "op_" + KEYWORD_NAMES[i]) == None
  {
    NativeOpcodeNamesEntries(intToBytes);
    var t := NativeOpcodeNames(intToBytes);
    forall j | 0 <= j < |t| ensures t[j].0 != "op_" + KEYWORD_NAMES[i] {
      if t[j].0 == "op_" + KEYWORD_NAMES[i] {
        OpPrefixInjective(KEYWORD_NAMES[NATIVE_POSITIONS[j]], KEYWORD_NAMES[i]);
        DroppedNamesUnused(j, i);
      }
    }
    GetAbsent(t, "op_" + KEYWORD_NAMES[i]);
  }

  /** No kept keyword is named like a dropped one, read off the literals. */
  lemma DroppedNamesUnused(j: nat, i: nat)
    requires j < |NATIVE_POSITIONS| && i in {0, 1, 3, 15}
    ensures KEYWORD_NAMES[NATIVE_POSITIONS[j]] != KEYWORD_NAMES[i]
  {
  }

  lemma NativeLookupKept(intToBytes: int -> Atom, i: nat)
    requires CastsAssumptions(intToBytes) && i < |KEYWORDS| && i !in {0, 1, 3, 15}
    ensures Get(NativeOpcodeNames(intToBytes), "op_" + KEYWORD_NAMES[i]) == Some(intToBytes(i))
  {
    NativeOpcodeNamesEntries(intToBytes);
    DroppedKeywords();
    var t := NativeOpcodeNames(intToBytes);
    assert i in NATIVE_POSITIONS;
    var j :| 0 <= j < |NATIVE_POSITIONS| && NATIVE_POSITIONS[j] == i;
    forall a, b | 0 <= a < b < |t| ensures t[a].0 != t[b].0 {
      NativeNamesDistinct();
      if t[a].0 == t[b].0 {
        OpPrefixInjective(KEYWORD_NAMES[NATIVE_POSITIONS[a]], KEYWORD_NAMES[NATIVE_POSITIONS[b]]);
      }
    }
    KeysDistinctAt(t);
    GetAt(t, j);
  }

  /** The entries of the native table have distinct keys (it is a dict). */
  lemma KeysDistinctAt(t: seq<(string, Atom)>)
    requires forall j, k :: 0 <= j < k < |t| ==> t[j].0 != t[k].0
    ensures DistinctKeys(t)
  {
    forall j | 0 <= j < |t| ensures Keys(t)[j] == t[j].0 {
      KeysAt(t, j);
    }
    UniqueByIndex(Keys(t));
  }

  /** The quote and apply opcodes handed to the native backend: the first byte
      of `KEYWORD_TO_ATOM["q"]` and of `KEYWORD_TO_ATOM["a"]` (an empty atom
      would raise `IndexError`). */
  function NativeQuoteApply(intToBytes: int -> Atom): (r: Result<(byte, byte)>)
  {
    var m := KeywordToAtom(intToBytes);
    match (Get(m, "q"), Get(m, "a"))
    case (Some(q), Some(a)) =>
      if |q| > 0 && |a| > 0 then Ok((q[0], a[0])) else Err(IndexError)
    case _ => Err(OtherError("KeyError"))
  }

  /** They are the first bytes of the atoms of opcodes 1 and 3; with the
      reference casts, the bytes 1 and 3. */
  lemma NativeQuoteApplyBytes(intToBytes: int -> Atom)
    requires CastsAssumptions(intToBytes)
    ensures NativeQuoteApply(intToBytes) == Ok((intToBytes(1)[0], intToBytes(3)[0]))
  {
    KeywordToAtomAt(intToBytes, 1);
    KeywordToAtomAt(intToBytes, 3);
    assert KEYWORDS[1] == "q" && KEYWORDS[3] == "a";
  }

  lemma NativeQuoteApplyReference()
    ensures NativeQuoteApply(IntToBytes) == Ok((1, 3))
  {
    ReferenceCastsMeetAssumptions();
    NativeQuoteApplyBytes(IntToBytes);
  }
}
