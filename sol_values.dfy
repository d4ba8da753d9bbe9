/**
 * Decoded ABI values (alloy's `DynSolValue`) and their textual rendering,
 * `sol_value_to_string` in evm/src/samples/utils.rs.
 */
module SolValues {

  newtype byte = x: int | 0 <= x < 256

  /**
   * A decoded ABI value: a finite tree whose leaves are scalars and whose
   * inner nodes are arrays, fixed arrays and tuples. The bit or byte width
   * carried by `Int`, `Uint` and `FixedBytes` is ignored by the formatter.
   */
  datatype Value =
    | Bool(b: bool)
    | Int(i: int, bits: nat)
    | Uint(u: nat, bits: nat)
    | FixedBytes(word: seq<byte>, size: nat)
    | Address(addr: seq<byte>)
    | Function(selector: seq<byte>)
    | Bytes(bytes: seq<byte>)
    | String(s: string)
    | Array(elems: seq<Value>)
    | FixedArray(elems: seq<Value>)
    | Tuple(elems: seq<Value>)
  {
    predicate IsComposite() {
      Array? || FixedArray? || Tuple?
    }
  }

  /**
   * The textual forms that come from the alloy primitives library: `Display`
   * of I256, U256, B256, Address and Function, and the `{:X?}` debug form of
   * Bytes. Their exact text is not part of this model, so every statement
   * below holds for any choice of them.
   */
  datatype Renderer = Renderer(
    signed: int -> string,
    unsigned: nat -> string,
    word: seq<byte> -> string,
    address: seq<byte> -> string,
    selector: seq<byte> -> string,
    bytes: seq<byte> -> string)

  /**
   * A value renders on a single line when every scalar in it does: the
   * library renderings of its leaves and its string leaves hold no '\n'.
   * Defined over the tree, independently of `Format`.
   */
  predicate SingleLine(r: Renderer, v: Value)
    decreases v
  {
    match v
    case Bool(_) => true
    case Int(i, _) => '\n' !in r.signed(i)
    case Uint(u, _) => '\n' !in r.unsigned(u)
    case FixedBytes(w, _) => '\n' !in r.word(w)
    case Address(a) => '\n' !in r.address(a)
    case Function(f) => '\n' !in r.selector(f)
    case Bytes(b) => '\n' !in r.bytes(b)
    case String(s) => '\n' !in s
    case Array(vs) => forall i | 0 <= i < |vs| :: SingleLine(r, vs[i])
    case FixedArray(vs) => forall i | 0 <= i < |vs| :: SingleLine(r, vs[i])
    case Tuple(vs) => forall i | 0 <= i < |vs| :: SingleLine(r, vs[i])
  }

  /**
   * `sol_value_to_string`. Scalars use their library rendering (booleans
   * as "true"/"false", strings as themselves); arrays, fixed arrays and
   * tuples fold their elements. Every call descends to a strictly smaller
   * subtree, so the function is total on every value.
   */
  function Format(r: Renderer, v: Value): (s: string)
    ensures SingleLine(r, v) ==> '\n' !in s
    decreases v, 1
  {
    match v
    case Bool(b) => if b then "true" else "false"
    case Int(i, _) => r.signed(i)
    case Uint(u, _) => r.unsigned(u)
    case FixedBytes(w, _) => r.word(w)
    case Address(a) => r.address(a)
    case Function(f) => r.selector(f)
    case Bytes(b) => r.bytes(b)
    case String(s) => s
    case Array(vs) => FoldElements(r, v, vs)
    case FixedArray(vs) => FoldElements(r, v, vs)
    case Tuple(vs) => FoldElements(r, v, vs)
  }

  /**
   * The fold over a composite's elements, left to right, that writes
   * ", " and then the element after everything written so far; `parent`
   * is the composite, so that every element is smaller than it.
   */
  function FoldElements(r: Renderer, ghost parent: Value, vs: seq<Value>): (s: string)
    requires forall i | 0 <= i < |vs| :: vs[i] < parent
    ensures (forall i | 0 <= i < |vs| :: SingleLine(r, vs[i])) ==> '\n' !in s
    decreases parent, 0, |vs|
  {
    if vs == [] then ""
    else FoldElements(r, parent, vs[..|vs| - 1]) + ", " + Format(r, vs[|vs| - 1])
  }

  /**
   * Reference reading of a composite's text: for each element in order,
   * ", " followed by that element's text.
   */
  function Prefixed(r: Renderer, vs: seq<Value>): string
  {
    if vs == [] then "" else ", " + Format(r, vs[0]) + Prefixed(r, vs[1..])
  }

  lemma {:induction false} PrefixedAppend(r: Renderer, a: seq<Value>, b: seq<Value>)
    ensures Prefixed(r, a + b) == Prefixed(r, a) + Prefixed(r, b)
    decreases |a|
  {
    if a == [] {
      assert a + b == b;
    } else {
      assert (a + b)[1..] == a[1..] + b;
      PrefixedAppend(r, a[1..], b);
    }
  }

  lemma {:induction false} FoldIsPrefixed(r: Renderer, parent: Value, vs: seq<Value>)
    requires forall i | 0 <= i < |vs| :: vs[i] < parent
    ensures FoldElements(r, parent, vs) == Prefixed(r, vs)
    decreases |vs|
  {
    if vs != [] {
      var init, last := vs[..|vs| - 1], vs[|vs| - 1];
      assert init + [last] == vs;
      calc {
        FoldElements(r, parent, vs);
        FoldElements(r, parent, init) + ", " + Format(r, last);
        { FoldIsPrefixed(r, parent, init); }
        Prefixed(r, init) + ", " + Format(r, last);
        { assert [last][1..] == []; }
        Prefixed(r, init) + Prefixed(r, [last]);
        { PrefixedAppend(r, init, [last]); }
        Prefixed(r, vs);
      }
    }
  }

  /**
   * Formatting an array, a fixed array or a tuple yields, for each element
   * in order, ", " and the element's text; the empty composite yields "".
   */
  lemma FormatComposite(r: Renderer, v: Value)
    requires v.IsComposite()
    ensures Format(r, v) == Prefixed(r, v.elems)
    ensures v.elems == [] ==> Format(r, v) == ""
  {
    FoldIsPrefixed(r, v, v.elems);
  }

  /**
   * A non-empty composite's text starts with the separator ", ": the fold
   * writes it in front of the first element too.
   */
  lemma FormatCompositeLeadingSeparator(r: Renderer, v: Value)
    requires v.IsComposite() && v.elems != []
    ensures Format(r, v) == ", " + Format(r, v.elems[0]) + Prefixed(r, v.elems[1..])
    ensures |Format(r, v)| >= 2 && Format(r, v)[..2] == ", "
  {
    FormatComposite(r, v);
  }

  /**
   * The text of a composite whose elements are those of `v` followed by
   * those of `w` is the text of `v` followed by the text of `w`, whatever
   * kinds of composite the three are.
   */
  lemma FormatCompositeAppend(r: Renderer, u: Value, v: Value, w: Value)
    requires u.IsComposite() && v.IsComposite() && w.IsComposite()
    requires u.elems == v.elems + w.elems
    ensures Format(r, u) == Format(r, v) + Format(r, w)
  {
    FormatComposite(r, u);
    FormatComposite(r, v);
    FormatComposite(r, w);
    PrefixedAppend(r, v.elems, w.elems);
  }
}
