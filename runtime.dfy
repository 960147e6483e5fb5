/** The operator-table construction of the clvm runtime (`clvm/runtime_001.py`):
    the keyword list, the two keyword maps built from it, the operator rename
    table, the three atoms handed to the reducer, and the atom/integer glue of
    the S-expression mixin. */
module Runtime001 {
  import opened PyDict
  import opened Casts

  /** An S-expression: an atom (a byte string) or a pair. */
  datatype SExp = Leaf(atom: Atom) | Cons(first: SExp, rest: SExp)

  /** The keywords, in opcode order: the keyword at position `i` has opcode `i`.
      "." appears twice, at positions 0 and 15. */
  const KEYWORDS: seq<string> := [
    ".", "q", "e", "a", "i", "c", "f", "r", "l", "x",
    "=", "sha256", "+", "-", "*", ".", "wrap", "unwrap", "point_add", "pubkey_for_exp"]

  /** What the tables rely on about `int_to_bytes`, which this model does not
      define: distinct opcodes of the keyword list get distinct atoms, and a
      positive integer never becomes the empty atom. */
  ghost predicate CastsAssumptions(intToBytes: int -> Atom)
  {
    && (forall i, j :: 0 <= i < |KEYWORDS| && 0 <= j < |KEYWORDS| && intToBytes(i) == intToBytes(j) ==> i == j)
    && (forall n :: n >= 1 ==> |intToBytes(n)| > 0)
  }

  /** The reference casts meet both assumptions. */
  lemma ReferenceCastsMeetAssumptions()
    ensures CastsAssumptions(IntToBytes)
  {
    forall n | n >= 1 ensures |IntToBytes(n)| > 0 {
    }
  }

  /** The only repeated keyword is "." at positions 0 and 15. */
  lemma KeywordsRepeatOnlyDot()
    ensures forall i, j :: 0 <= i < j < |KEYWORDS| && KEYWORDS[i] == KEYWORDS[j] ==> i == 0 && j == 15
    ensures KEYWORDS[0] == KEYWORDS[15] == "."
  {
  }

  // ------------------------------------------------------------ keyword maps

  /** The pairs `{int_to_bytes(k): v for k, v in enumerate(KEYWORDS)}` inserts. */
  function FromAtomPairs(intToBytes: int -> Atom): (ps: seq<(Atom, string)>)
    ensures |ps| == |KEYWORDS|
    ensures forall i :: 0 <= i < |KEYWORDS| ==> ps[i] == (intToBytes(i), KEYWORDS[i])
  {
    seq(|KEYWORDS|, i requires 0 <= i < |KEYWORDS| => (intToBytes(i), KEYWORDS[i]))
  }

  /** `KEYWORD_FROM_ATOM`: opcode atom to keyword. */
  function KeywordFromAtom(intToBytes: int -> Atom): seq<(Atom, string)>
  {
    FromPairs(FromAtomPairs(intToBytes))
  }

  /** `KEYWORD_TO_ATOM = {v: k for k, v in KEYWORD_FROM_ATOM.items()}`: keyword to opcode atom. */
  function KeywordToAtom(intToBytes: int -> Atom): seq<(string, Atom)>
  {
    FromPairs(Swapped(KeywordFromAtom(intToBytes)))
  }

  /** With distinct atoms no insertion overwrites: `KEYWORD_FROM_ATOM` holds all
      20 entries, the atom of position `i` mapped to `KEYWORDS[i]`, in order. */
  lemma KeywordFromAtomDense(intToBytes: int -> Atom)
    requires CastsAssumptions(intToBytes)
    ensures KeywordFromAtom(intToBytes) == FromAtomPairs(intToBytes)
    ensures |KeywordFromAtom(intToBytes)| == 20
    ensures forall i :: 0 <= i < |KEYWORDS| ==>
      Get(KeywordFromAtom(intToBytes), intToBytes(i)) == Some(KEYWORDS[i])
  {
    var ps := FromAtomPairs(intToBytes);
    forall i | 0 <= i < |ps| ensures Keys(ps)[i] == intToBytes(i) {
      KeysAt(ps, i);
    }
    UniqueByIndex(Keys(ps));
    FromPairsDistinct(ps);
    forall i | 0 <= i < |KEYWORDS| ensures Get(ps, intToBytes(i)) == Some(KEYWORDS[i]) {
      GetAt(ps, i);
    }
  }

  /** The pairs the `KEYWORD_TO_ATOM` comprehension inserts, in order. */
  function ToAtomPairs(intToBytes: int -> Atom): (ps: seq<(string, Atom)>)
    ensures |ps| == |KEYWORDS|
    ensures forall i :: 0 <= i < |KEYWORDS| ==> ps[i] == (KEYWORDS[i], intToBytes(i))
  {
    seq(|KEYWORDS|, i requires 0 <= i < |KEYWORDS| => (KEYWORDS[i], intToBytes(i)))
  }

  lemma ToAtomPairsAreSwapped(intToBytes: int -> Atom)
    requires CastsAssumptions(intToBytes)
    ensures Swapped(KeywordFromAtom(intToBytes)) == ToAtomPairs(intToBytes)
  {
    KeywordFromAtomDense(intToBytes);
  }

  /** The position a keyword's last occurrence has: the one whose atom
      `KEYWORD_TO_ATOM` keeps. */
  function LastPosition(i: nat): (j: nat)
    requires i < |KEYWORDS|
    ensures j < |KEYWORDS| && KEYWORDS[j] == KEYWORDS[i]
    ensures forall k :: j < k < |KEYWORDS| ==> KEYWORDS[k] != KEYWORDS[i]
  {
    KeywordsRepeatOnlyDot();
    if i == 0 then 15 else i
  }

  lemma KeywordToAtomAt(intToBytes: int -> Atom, i: nat)
    requires CastsAssumptions(intToBytes) && i < |KEYWORDS|
    ensures Get(KeywordToAtom(intToBytes), KEYWORDS[i]) == Some(intToBytes(LastPosition(i)))
  {
    var ps := ToAtomPairs(intToBytes);
    ToAtomPairsAreSwapped(intToBytes);
    GetFromPairs(ps, KEYWORDS[i]);
    LastValueAt(ps, LastPosition(i));
  }

  /** `KEYWORD_TO_ATOM[KEYWORDS[i]]` is the atom of the keyword's LAST position:
      the later insertion of "." overwrites, so "." maps to the atom of 15; and a
      string that is not a keyword has no entry. */
  lemma KeywordToAtomLookup(intToBytes: int -> Atom)
    requires CastsAssumptions(intToBytes)
    ensures forall i :: 0 <= i < |KEYWORDS| ==>
      Get(KeywordToAtom(intToBytes), KEYWORDS[i]) == Some(intToBytes(LastPosition(i)))
    ensures Get(KeywordToAtom(intToBytes), ".") == Some(intToBytes(15))
    ensures forall v :: v !in KEYWORDS ==> Get(KeywordToAtom(intToBytes), v) == None
  {
    var ps := ToAtomPairs(intToBytes);
    ToAtomPairsAreSwapped(intToBytes);
    forall i | 0 <= i < |KEYWORDS|
      ensures Get(KeywordToAtom(intToBytes), KEYWORDS[i]) == Some(intToBytes(LastPosition(i)))
    {
      KeywordToAtomAt(intToBytes, i);
    }
    KeywordToAtomAt(intToBytes, 0);
    assert KEYWORDS[0] == ".";
    forall v | v !in KEYWORDS ensures Get(KeywordToAtom(intToBytes), v) == None {
      GetFromPairs(ps, v);
      LastValueAbsent(ps, v);
    }
  }

  /** The first fifteen keywords are distinct: inserting them overwrites nothing. */
  lemma ToAtomFront(intToBytes: int -> Atom)
    ensures FromPairs(ToAtomPairs(intToBytes)[..15]) == ToAtomPairs(intToBytes)[..15]
  {
    var front := ToAtomPairs(intToBytes)[..15];
    KeywordsRepeatOnlyDot();
    forall i | 0 <= i < |front| ensures Keys(front)[i] == KEYWORDS[i] {
      KeysAt(front, i);
    }
    UniqueByIndex(Keys(front));
    FromPairsDistinct(front);
  }

  /** The last four keywords are new: inserting them appends them. */
  lemma ToAtomBack(intToBytes: int -> Atom, merged: seq<(string, Atom)>)
    requires merged == [(".", intToBytes(15))] + ToAtomPairs(intToBytes)[1..15]
    ensures Extend(merged, ToAtomPairs(intToBytes)[16..]) == merged + ToAtomPairs(intToBytes)[16..]
  {
    var all := merged + ToAtomPairs(intToBytes)[16..];
    KeywordsRepeatOnlyDot();
    forall i | 0 <= i < |all| ensures Keys(all)[i] == KEYWORDS[if i < 15 then i else i + 1] {
      KeysAt(all, i);
    }
    UniqueByIndex(Keys(all));
    ExtendFresh(merged, ToAtomPairs(intToBytes)[16..]);
  }

  /** Inserting the pairs is inserting the first fifteen, then the second ".",
      then the last four. */
  lemma ToAtomSplit(ps: seq<(string, Atom)>)
    requires |ps| == 20
    ensures FromPairs(ps) == Extend(Extend(FromPairs(ps[..15]), [ps[15]]), ps[16..])
  {
    assert ps == ps[..15] + [ps[15]] + ps[16..];
    ExtendConcat([], ps[..15] + [ps[15]], ps[16..]);
    ExtendConcat([], ps[..15], [ps[15]]);
  }

  /** The second "." overwrites the first in place. */
  lemma ToAtomOverwrite(intToBytes: int -> Atom)
    ensures Extend(FromPairs(ToAtomPairs(intToBytes)[..15]), [ToAtomPairs(intToBytes)[15]]) ==
      [(".", intToBytes(15))] + ToAtomPairs(intToBytes)[1..15]
  {
    var ps := ToAtomPairs(intToBytes);
    var front := ps[..15];
    ToAtomFront(intToBytes);
    assert ps[15] == (".", intToBytes(15));
    PutPresent(front, ".", intToBytes(15), 0);
    assert front[0 := (".", intToBytes(15))] == [(".", intToBytes(15))] + ps[1..15];
  }

  /** `KEYWORD_TO_ATOM` has 19 entries, in first-insertion order: "." keeps
      position 0 but holds the atom of 15, and the second "." adds no entry. */
  lemma KeywordToAtomEntries(intToBytes: int -> Atom)
    requires CastsAssumptions(intToBytes)
    ensures KeywordToAtom(intToBytes) ==
      [(".", intToBytes(15))] + ToAtomPairs(intToBytes)[1..15] + ToAtomPairs(intToBytes)[16..]
    ensures |KeywordToAtom(intToBytes)| == 19
  {
    var ps := ToAtomPairs(intToBytes);
    ToAtomPairsAreSwapped(intToBytes);
    ToAtomSplit(ps);
    ToAtomOverwrite(intToBytes);
    ToAtomBack(intToBytes, [(".", intToBytes(15))] + ps[1..15]);
  }

  /** Keyword to atom and back gives the keyword, for every keyword. */
  lemma KeywordRoundTrip(intToBytes: int -> Atom)
    requires CastsAssumptions(intToBytes)
    ensures forall v :: v in KEYWORDS ==>
      Get(KeywordToAtom(intToBytes), v).Some? &&
      Get(KeywordFromAtom(intToBytes), Get(KeywordToAtom(intToBytes), v).value) == Some(v)
  {
    KeywordToAtomLookup(intToBytes);
    KeywordFromAtomDense(intToBytes);
    forall v | v in KEYWORDS
      ensures Get(KeywordToAtom(intToBytes), v).Some? &&
        Get(KeywordFromAtom(intToBytes), Get(KeywordToAtom(intToBytes), v).value) == Some(v)
    {
      var i :| 0 <= i < |KEYWORDS| && KEYWORDS[i] == v;
      var j := LastPosition(i);
      assert Get(KeywordFromAtom(intToBytes), intToBytes(j)) == Some(KEYWORDS[j]);
    }
  }

  /** Atom to keyword and back gives the atom for every opcode but 0: the
      round trip fails only for the shadowed first ".", which comes back as
      the atom of 15. */
  lemma AtomRoundTrip(intToBytes: int -> Atom)
    requires CastsAssumptions(intToBytes)
    ensures forall i :: 0 < i < |KEYWORDS| ==>
      Get(KeywordFromAtom(intToBytes), intToBytes(i)).Some? &&
      Get(KeywordToAtom(intToBytes), Get(KeywordFromAtom(intToBytes), intToBytes(i)).value) == Some(intToBytes(i))
    ensures Get(KeywordFromAtom(intToBytes), intToBytes(0)).Some? &&
      Get(KeywordToAtom(intToBytes), Get(KeywordFromAtom(intToBytes), intToBytes(0)).value) == Some(intToBytes(15))
    ensures intToBytes(15) != intToBytes(0)
  {
    KeywordToAtomLookup(intToBytes);
    KeywordFromAtomDense(intToBytes);
    assert 0 < 15 < |KEYWORDS|;
  }

  // ------------------------------------------------------------ reducer atoms

  /** The quote, eval and apply atoms given to `make_reduce_f`: `KEYWORD_TO_ATOM`
      looked up at "q", "e" and "a" (a missing key would raise `KeyError`). */
  function ReducerAtoms(intToBytes: int -> Atom): Option<(Atom, Atom, Atom)>
  {
    var m := KeywordToAtom(intToBytes);
    match (Get(m, "q"), Get(m, "e"), Get(m, "a"))
    case (Some(q), Some(e), Some(a)) => Some((q, e, a))
    case _ => None
  }

  /** The reducer receives the atoms of opcodes 1, 2 and 3, which are pairwise
      distinct and non-empty. */
  lemma ReducerAtomsAreOneTwoThree(intToBytes: int -> Atom)
    requires CastsAssumptions(intToBytes)
    ensures ReducerAtoms(intToBytes) == Some((intToBytes(1), intToBytes(2), intToBytes(3)))
    ensures intToBytes(1) != intToBytes(2) && intToBytes(2) != intToBytes(3) && intToBytes(1) != intToBytes(3)
    ensures |intToBytes(1)| > 0 && |intToBytes(3)| > 0
  {
    KeywordToAtomAt(intToBytes, 1);
    KeywordToAtomAt(intToBytes, 2);
    KeywordToAtomAt(intToBytes, 3);
    assert KEYWORDS[1] == "q" && KEYWORDS[2] == "e" && KEYWORDS[3] == "a";
  }

  // ------------------------------------------------------------ OP_REWRITE

  /** `OP_REWRITE`: operator symbol to operator name, the entries of its dict
      display in order (the display has no repeated key; see `RewriteTable`). */
  const OP_REWRITE: seq<(string, string)> := [
    ("+", "add"), ("-", "subtract"), ("*", "multiply"), ("/", "divide"),
    ("i", "if"), ("c", "cons"), ("f", "first"), ("r", "rest"),
    ("l", "listp"), ("x", "raise"), ("=", "eq")]

  /** `OP_REWRITE.get(k, k)`: the renamed operator, or the keyword itself. */
  function Rewrite(k: string): string
  {
    match Get(OP_REWRITE, k)
    case Some(name) => name
    case None => k
  }

  /** The dict display repeats no key, so the dict keeps its eleven entries as
      written, and looking up the symbol of entry `i` gives that entry's name. */
  lemma RewriteTable()
    ensures FromPairs(OP_REWRITE) == OP_REWRITE
    ensures forall i :: 0 <= i < |OP_REWRITE| ==> Rewrite(OP_REWRITE[i].0) == OP_REWRITE[i].1
  {
    RewriteDistinct();
    FromPairsDistinct(OP_REWRITE);
    forall i | 0 <= i < |OP_REWRITE| ensures Rewrite(OP_REWRITE[i].0) == OP_REWRITE[i].1 {
      GetAt(OP_REWRITE, i);
    }
  }

  lemma RewriteDistinct()
    ensures DistinctKeys(OP_REWRITE)
  {
    forall i | 0 <= i < |OP_REWRITE| ensures Keys(OP_REWRITE)[i] == OP_REWRITE[i].0 {
      KeysAt(OP_REWRITE, i);
    }
    UniqueByIndex(Keys(OP_REWRITE));
  }

  /** A string that is not a symbol of the rename table is left as it is. */
  lemma RewriteOther(k: string)
    requires forall i :: 0 <= i < |OP_REWRITE| ==> OP_REWRITE[i].0 != k
    ensures Rewrite(k) == k
  {
    GetAbsent(OP_REWRITE, k);
  }

  /** Where each keyword sits in the rename table, -1 when it is not there. */
  const REWRITE_POSITION: seq<int> := [-1, -1, -1, -1, 4, 5, 6, 7, 8, 9, 10, -1, 0, 1, 2, -1, -1, -1, -1, -1]

  /** The name each keyword is given by `OP_REWRITE.get(k, k)`, by position. */
  const KEYWORD_NAMES: seq<string> := [
    ".", "q", "e", "a", "if", "cons", "first", "rest", "listp", "raise",
    "eq", "sha256", "add", "subtract", "multiply", ".", "wrap", "unwrap", "point_add", "pubkey_for_exp"]

  /** Where keyword `i` sits in the rename table, read off the literals. */
  lemma RewritePosition(i: nat)
    requires i < |KEYWORDS|
    ensures REWRITE_POSITION[i] < |OP_REWRITE|
    ensures REWRITE_POSITION[i] >= 0 ==> OP_REWRITE[REWRITE_POSITION[i]] == (KEYWORDS[i], KEYWORD_NAMES[i])
    ensures REWRITE_POSITION[i] < 0 ==> KEYWORD_NAMES[i] == KEYWORDS[i]
    ensures REWRITE_POSITION[i] < 0 ==> forall j :: 0 <= j < |OP_REWRITE| ==> OP_REWRITE[j].0 != KEYWORDS[i]
  {
  }

  lemma RewriteKeywordAt(i: nat)
    requires i < |KEYWORDS|
    ensures Rewrite(KEYWORDS[i]) == KEYWORD_NAMES[i]
  {
    RewritePosition(i);
    var p := REWRITE_POSITION[i];
    if p >= 0 {
      RewriteDistinct();
      GetAt(OP_REWRITE, p);
    } else {
      GetAbsent(OP_REWRITE, KEYWORDS[i]);
    }
  }

  /** `OP_REWRITE.get(k, k)` for every keyword. */
  lemma RewriteKeywords()
    ensures forall i :: 0 <= i < |KEYWORDS| ==> Rewrite(KEYWORDS[i]) == KEYWORD_NAMES[i]
  {
    forall i | 0 <= i < |KEYWORDS| ensures Rewrite(KEYWORDS[i]) == KEYWORD_NAMES[i] {
      RewriteKeywordAt(i);
    }
  }

  /** Facts read off the literal tables: the rename targets are pairwise
      distinct and none of them is a keyword; "/" is not a keyword. */
  lemma RenameTargetLiterals()
    ensures forall i, j :: 0 <= i < j < |OP_REWRITE| ==> OP_REWRITE[i].1 != OP_REWRITE[j].1
    ensures forall i, j :: 0 <= i < |KEYWORDS| && 0 <= j < |OP_REWRITE| ==> KEYWORDS[i] != OP_REWRITE[j].1
    ensures "/" !in KEYWORDS && OP_REWRITE[3] == ("/", "divide")
  {
  }

  /** Facts read off the literal name list: no keyword is named "divide", and
      distinct keywords get distinct names. */
  lemma KeywordNameLiterals()
    ensures "divide" !in KEYWORD_NAMES && |KEYWORD_NAMES| == |KEYWORDS|
    ensures forall i, j :: 0 <= i < |KEYWORDS| && 0 <= j < |KEYWORDS| && KEYWORD_NAMES[i] == KEYWORD_NAMES[j] ==>
      KEYWORDS[i] == KEYWORDS[j]
  {
  }

  /** Renaming the keywords: "divide" is never reached through the keyword
      list (there is no "/" keyword), and distinct keywords keep distinct names. */
  lemma RewriteTargetsDistinct()
    ensures forall i :: 0 <= i < |KEYWORDS| ==> Rewrite(KEYWORDS[i]) != "divide"
    ensures forall i, j :: 0 <= i < |KEYWORDS| && 0 <= j < |KEYWORDS| && Rewrite(KEYWORDS[i]) == Rewrite(KEYWORDS[j]) ==>
      KEYWORDS[i] == KEYWORDS[j]
  {
    RenameTargetLiterals();
    KeywordNameLiterals();
    RewriteKeywords();
  }

  // ------------------------------------------------------------ mixin

  /** The values `to_atom` is applied to: Python ints (and bools, which are
      ints), byte strings, and anything else (pairs, variables). */
  datatype PyValue = PyInt(n: int) | PyBool(b: bool) | PyBytes(bytes: Atom) | PyOther(tag: string)

  /** `mixin.to_atom`: an integer becomes `int_to_bytes` of it; any other value
      is returned unchanged. */
  function ToAtom(intToBytes: int -> Atom, v: PyValue): (r: PyValue)
    ensures !r.PyInt? && !r.PyBool?
    ensures v.PyInt? ==> r == PyBytes(intToBytes(v.n))
    ensures v.PyBool? ==> r == PyBytes(intToBytes(if v.b then 1 else 0))
    ensures !v.PyInt? && !v.PyBool? ==> r == v
  {
    match v
    case PyInt(n) => PyBytes(intToBytes(n))
    case PyBool(b) => PyBytes(intToBytes(if b then 1 else 0))
    case _ => v
  }

  /** `mixin.as_int`: `int_from_bytes` of the atom; a pair has no atom, so
      there is no integer. */
  function AsInt(intFromBytes: Atom -> int, s: SExp): (r: Option<int>)
    ensures r.Some? <==> s.Leaf?
    ensures s.Leaf? ==> r == Some(intFromBytes(s.atom))
  {
    match s
    case Leaf(a) => Some(intFromBytes(a))
    case Cons(_, _) => None
  }

  /** `to_atom` is idempotent: a converted value is already an atom. */
  lemma ToAtomIdempotent(intToBytes: int -> Atom, v: PyValue)
    ensures ToAtom(intToBytes, ToAtom(intToBytes, v)) == ToAtom(intToBytes, v)
  {
  }

  /** With the reference casts, `as_int` of the atom `to_atom` makes from an
      integer is that integer. */
  lemma AsIntToAtomRoundTrip(n: int)
    ensures ToAtom(IntToBytes, PyInt(n)).PyBytes?
    ensures AsInt(IntFromBytes, Leaf(ToAtom(IntToBytes, PyInt(n)).bytes)) == Some(n)
  {
    IntRoundTrip(n);
  }
}
