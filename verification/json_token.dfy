/**
 * The 64-bit layout of a Corrade `Utility::JsonToken` and its inline
 * accessors: `type()`, `isParsed()`, `parsedType()`, `firstChild()`,
 * `next()` and the `as*()` value getters.
 *
 * A token is the pair of its packed word (`_sizeFlagsParsedTypeType`) and
 * the 64-bit union that holds either the child count or the parsed value.
 * A parsed document is a flat sequence of tokens in depth-first order; a
 * token pointer is an index into it and `nullptr` is `None`.
 */
module JsonToken {

  type Word = bv64

  /** The 64-bit union, read as an unsigned integer. */
  type u64 = x: int | 0 <= x < 0x1_0000_0000_0000_0000

  import opened Optional

  /** The outcome of an accessor guarded by a debug assertion. */
  datatype Checked<T> = Ok(value: T) | AssertionFailure

  // ---------------------------------------------------------------------
  // Private bit layout (64-bit branch)

  const TypeMask: Word := 0x07 << 61
  const TypeObject: Word := 1 << 61
  const TypeArray: Word := 2 << 61
  const TypeNull: Word := 3 << 61
  const TypeBool: Word := 4 << 61
  const TypeNumber: Word := 5 << 61
  const TypeString: Word := 6 << 61

  const ParsedTypeMask: Word := 0x07 << 58

  const FlagStringKey: Word := 1 << 57
  const FlagStringGlobal: Word := 1 << 56
  const FlagStringEscaped: Word := 1 << 55

  const SizeMask: Word := (1 << 55) - 1

  /** The six masks split the word into disjoint parts that together cover all 64 bits. */
  lemma LayoutPartitionsWord()
    ensures TypeMask & ParsedTypeMask == 0 && TypeMask & FlagStringKey == 0
    ensures TypeMask & FlagStringGlobal == 0 && TypeMask & FlagStringEscaped == 0
    ensures TypeMask & SizeMask == 0
    ensures ParsedTypeMask & FlagStringKey == 0 && ParsedTypeMask & FlagStringGlobal == 0
    ensures ParsedTypeMask & FlagStringEscaped == 0 && ParsedTypeMask & SizeMask == 0
    ensures FlagStringKey & FlagStringGlobal == 0 && FlagStringKey & FlagStringEscaped == 0
    ensures FlagStringKey & SizeMask == 0
    ensures FlagStringGlobal & FlagStringEscaped == 0 && FlagStringGlobal & SizeMask == 0
    ensures FlagStringEscaped & SizeMask == 0
    ensures TypeMask | ParsedTypeMask | FlagStringKey | FlagStringGlobal
            | FlagStringEscaped | SizeMask == 0xFFFF_FFFF_FFFF_FFFF
  {
  }

  // ---------------------------------------------------------------------
  // Public enumerations

  datatype Type = Object | Array | Null | Bool | Number | String {
    /** The 3-bit code of the type, 1 to 6; 0 and 7 are not used. */
    function Code(): (c: bv64)
      ensures 1 <= c <= 6
    {
      match this
      case Object => 1
      case Array => 2
      case Null => 3
      case Bool => 4
      case Number => 5
      case String => 6
    }

    /** The value of the public enumerator, `Code() << 61`. */
    function Value(): Word {
      Code() << 61
    }
  }

  datatype ParsedType = None | Double | Float | UnsignedInt | Int | UnsignedLong | Long | Other {
    function Code(): (c: bv64)
      ensures c <= 7
    {
      match this
      case None => 0
      case Double => 1
      case Float => 2
      case UnsignedInt => 3
      case Int => 4
      case UnsignedLong => 5
      case Long => 6
      case Other => 7
    }

    /** The value of the public enumerator, `Code() << 58`. */
    function Value(): Word {
      Code() << 58
    }
  }

  /** `ParsedType::Size` is an alias: `UnsignedLong` on a 64-bit target. */
  const SizeParsedType: ParsedType := UnsignedLong

  /** The public enumerators carry the same values as the private constants. */
  lemma PublicTypeMatchesPrivate()
    ensures Object.Value() == TypeObject && Array.Value() == TypeArray
    ensures Null.Value() == TypeNull && Bool.Value() == TypeBool
    ensures Number.Value() == TypeNumber && String.Value() == TypeString
    ensures forall t: Type :: t.Value() & TypeMask == t.Value() && t.Value() != 0
  {
  }

  // ---------------------------------------------------------------------
  // Packing the word

  /**
   * The fields stored in a packed word: the 3-bit type and parsed-type
   * codes, the three string flags as one 3-bit group (key, global, escaped
   * from the top down) and the 55-bit size.
   */
  datatype Fields = Fields(typeCode: Word, parsedCode: Word, flags: Word, size: Word)

  predicate FieldsFit(f: Fields) {
    f.typeCode <= 7 && f.parsedCode <= 7 && f.flags <= 7 && f.size <= SizeMask
  }

  function Pack(f: Fields): Word {
    (f.typeCode << 61) | (f.parsedCode << 58) | (f.flags << 55) | f.size
  }

  function Unpack(w: Word): (f: Fields)
    ensures FieldsFit(f)
  {
    Fields((w & TypeMask) >> 61, (w & ParsedTypeMask) >> 58,
           (w & (FlagStringKey | FlagStringGlobal | FlagStringEscaped)) >> 55, w & SizeMask)
  }

  /** Packing loses nothing: every field that fits its width reads back as it was stored. */
  lemma UnpackPack(f: Fields)
    requires FieldsFit(f)
    ensures Unpack(Pack(f)) == f
  {
  }

  /** Every word is the packing of its fields: no bit lies outside the layout. */
  lemma PackUnpack(w: Word)
    ensures Pack(Unpack(w)) == w
  {
  }

  /** Each flag constant selects its own bit of the flag group. */
  lemma FlagsAreTheFlagGroup(w: Word)
    ensures w & FlagStringKey != 0 <==> Unpack(w).flags & 4 != 0
    ensures w & FlagStringGlobal != 0 <==> Unpack(w).flags & 2 != 0
    ensures w & FlagStringEscaped != 0 <==> Unpack(w).flags & 1 != 0
  {
  }

  // ---------------------------------------------------------------------
  // Tokens and the inline accessors

  /** A token: the packed word and the union holding the child count or the parsed value. */
  datatype Token = Token(word: Word, payload: u64)

  /** `type()`: the type bits of the word, as the public enumerator's value. */
  function TypeOf(t: Token): (r: Word)
    ensures r & TypeMask == r
    ensures r == ((Unpack(t.word).typeCode as Word) << 61)
  {
    t.word & TypeMask
  }

  /** Reading `type()` back as a public enumerator, when the bits name one. */
  function DecodeType(w: Word): (r: Option<Type>)
    ensures r.Some? ==> r.value.Value() == w & TypeMask
    ensures r.None? ==> forall ty: Type :: ty.Value() != w & TypeMask
  {
    var bits := w & TypeMask;
    if bits == TypeObject then Some(Object)
    else if bits == TypeArray then Some(Array)
    else if bits == TypeNull then Some(Null)
    else if bits == TypeBool then Some(Bool)
    else if bits == TypeNumber then Some(Number)
    else if bits == TypeString then Some(String)
    else Option.None
  }

  /** `isParsed()`: some parsed-type bit is set. */
  predicate IsParsed(t: Token) {
    t.word & ParsedTypeMask != 0
  }

  /** `parsedType()`: the parsed-type bits of the word. */
  function ParsedTypeOf(t: Token): (r: Word)
    ensures r & ParsedTypeMask == r
  {
    t.word & ParsedTypeMask
  }

  /** Every value of the parsed-type bits is one of the eight enumerators. */
  function DecodeParsedType(w: Word): (r: ParsedType)
    ensures r.Value() == w & ParsedTypeMask
  {
    var code := (w & ParsedTypeMask) >> 58;
    if code == 0 then ParsedType.None
    else if code == 1 then Double
    else if code == 2 then Float
    else if code == 3 then UnsignedInt
    else if code == 4 then Int
    else if code == 5 then UnsignedLong
    else if code == 6 then Long
    else Other
  }

  /** `isParsed()` holds exactly when `parsedType()` is not `ParsedType::None`. */
  lemma IsParsedIffNotNone(t: Token)
    ensures IsParsed(t) <==> ParsedTypeOf(t) != ParsedType.None.Value()
    ensures IsParsed(t) <==> DecodeParsedType(t.word) != ParsedType.None
  {
    var p := DecodeParsedType(t.word);
    assert p.Value() == ParsedTypeOf(t);
    if p != ParsedType.None {
      assert p.Code() != 0;
      assert p.Value() != 0;
    }
  }

  predicate IsContainer(t: Token) {
    TypeOf(t) == TypeObject || TypeOf(t) == TypeArray
  }

  predicate IsStringKey(t: Token) {
    t.word & FlagStringKey != 0
  }

  /**
   * `childCount()`, the number of all tokens nested below the token: the
   * stored count for an object or an array, 0 for a value that is not a
   * container, and for an object key its value plus the value's own
   * nested tokens (a key that ends the list counts its missing value).
   */
  function ChildCount(ts: seq<Token>, i: nat): (r: nat)
    requires i < |ts|
    decreases |ts| - i
  {
    if IsContainer(ts[i]) then ts[i].payload as nat
    else if IsStringKey(ts[i]) then (if i + 1 < |ts| then 1 + ChildCount(ts, i + 1) else 1)
    else 0
  }

  /** A token as the tokenizer produces it: only a string can be an object key. */
  predicate TokenValid(t: Token) {
    IsStringKey(t) ==> TypeOf(t) == TypeString
  }

  /** `firstChild()`: the slot right after the token, or none. */
  function FirstChild(ts: seq<Token>, i: nat): Option<nat>
    requires i < |ts|
  {
    if (IsContainer(ts[i]) && ts[i].payload != 0) || IsStringKey(ts[i]) then Some(i + 1)
    else Option.None
  }

  /** `next()`: the slot after the token and its whole subtree. */
  function Next(ts: seq<Token>, i: nat): nat
    requires i < |ts|
  {
    i + ChildCount(ts, i) + 1
  }

  /**
   * A depth-first token list: every subtree ends inside the list, and every
   * token inside a subtree has its own subtree nested within it.
   */
  predicate WellFormed(ts: seq<Token>) {
    (forall i :: 0 <= i < |ts| ==> TokenValid(ts[i]) && Next(ts, i) <= |ts|) &&
    (forall i, j :: 0 <= i < j < |ts| && j < Next(ts, i) ==> Next(ts, j) <= Next(ts, i))
  }

  /** `firstChild()` finds a child exactly when `childCount()` is non-zero, and it lies in the subtree. */
  lemma FirstChildIffChildren(ts: seq<Token>, i: nat)
    requires WellFormed(ts) && i < |ts|
    ensures FirstChild(ts, i).Some? <==> ChildCount(ts, i) > 0
    ensures FirstChild(ts, i).Some? ==>
              FirstChild(ts, i).value == i + 1 < Next(ts, i) &&
              Next(ts, i + 1) <= Next(ts, i)
  {
    assert TokenValid(ts[i]);
    if IsStringKey(ts[i]) {
      assert TypeOf(ts[i]) == TypeString;
      assert !IsContainer(ts[i]);
    }
  }

  /** An object key's `next()` is its value's `next()`: skipping the key skips the value's tree. */
  lemma KeyNextSkipsValue(ts: seq<Token>, i: nat)
    requires WellFormed(ts) && i < |ts| && IsStringKey(ts[i])
    ensures i + 1 < |ts| && Next(ts, i) == Next(ts, i + 1)
  {
    assert TokenValid(ts[i]);
    assert TypeOf(ts[i]) == TypeString;
  }

  /** A childless token's `next()` is the following slot. */
  lemma NextOfLeaf(ts: seq<Token>, i: nat)
    requires WellFormed(ts) && i < |ts| && FirstChild(ts, i).None?
    ensures Next(ts, i) == i + 1
  {
    FirstChildIffChildren(ts, i);
  }

  /**
   * A run of subtrees: every token in [from, end) has its subtree ending at
   * or before `end`.
   */
  predicate Region(ts: seq<Token>, from: nat, end: nat) {
    from <= end <= |ts| &&
    forall k :: from <= k < end ==> Next(ts, k) <= end
  }

  /**
   * Walking from `from` with `next()` until `end`: the roots of the run of
   * subtrees, each one's `next()` being the following root.
   */
  function Siblings(ts: seq<Token>, from: nat, end: nat): (r: seq<nat>)
    requires Region(ts, from, end)
    ensures r == [] <==> from == end
    ensures forall m :: 0 <= m < |r| ==> from <= r[m] < end
    ensures r != [] ==> r[0] == from && Next(ts, r[|r| - 1]) == end
    ensures forall m :: 0 <= m < |r| - 1 ==> Next(ts, r[m]) == r[m + 1]
    decreases end - from
  {
    if from == end then []
    else
      var n := Next(ts, from);
      [from] + Siblings(ts, n, end)
  }

  /**
   * The immediate children of a token, found with `firstChild()` and
   * `next()`. `children()` itself is the whole nested range of slots from
   * `i + 1` up to `Next(ts, i)`; `ChildrenTileSubtree` shows that the trees
   * of these immediate children make up exactly that range.
   */
  function ImmediateChildren(ts: seq<Token>, i: nat): (r: seq<nat>)
    requires WellFormed(ts) && i < |ts|
    ensures r == [] <==> FirstChild(ts, i).None?
    ensures r != [] ==> r[0] == FirstChild(ts, i).value
    ensures forall m :: 0 <= m < |r| ==> i < r[m] < Next(ts, i)
  {
    FirstChildIffChildren(ts, i);
    Siblings(ts, i + 1, Next(ts, i))
  }

  /** Every slot of a run lies in the subtree of one of its roots: the one returned. */
  lemma {:induction false} SiblingsCover(ts: seq<Token>, from: nat, end: nat, k: nat) returns (m: nat)
    requires Region(ts, from, end) && from <= k < end
    ensures m < |Siblings(ts, from, end)|
    ensures Siblings(ts, from, end)[m] <= k < Next(ts, Siblings(ts, from, end)[m])
    decreases end - from
  {
    var r := Siblings(ts, from, end);
    var n := Next(ts, from);
    if k < n {
      m := 0;
    } else {
      var rest := Siblings(ts, n, end);
      assert r == [from] + rest;
      var m' := SiblingsCover(ts, n, end, k);
      m := m' + 1;
    }
  }

  /** The subtree of a token, without the token, is a run of subtrees. */
  lemma SubtreeIsRegion(ts: seq<Token>, i: nat)
    requires WellFormed(ts) && i < |ts|
    ensures Region(ts, i + 1, Next(ts, i))
  {
  }

  /** The children's subtrees tile the parent's subtree: `next()` from each child skips exactly its descendants. */
  lemma ChildrenTileSubtree(ts: seq<Token>, i: nat, k: nat)
    requires WellFormed(ts) && i < |ts| && i < k < Next(ts, i)
    ensures ImmediateChildren(ts, i) != []
    ensures Next(ts, ImmediateChildren(ts, i)[|ImmediateChildren(ts, i)| - 1]) == Next(ts, i)
    ensures exists m :: 0 <= m < |ImmediateChildren(ts, i)| &&
                        ImmediateChildren(ts, i)[m] <= k < Next(ts, ImmediateChildren(ts, i)[m])
  {
    var end := Next(ts, i);
    SubtreeIsRegion(ts, i);
    var c := Siblings(ts, i + 1, end);
    assert ImmediateChildren(ts, i) == c;
    var m := SiblingsCover(ts, i + 1, end, k);
    assert c[m] <= k < Next(ts, c[m]);
  }

  // ---------------------------------------------------------------------
  // The as*() accessors

  /** Two's-complement reading of a 32-bit pattern. */
  function Signed32(x: nat): (r: int)
    requires x < 0x1_0000_0000
    ensures -0x8000_0000 <= r < 0x8000_0000
    ensures r >= 0 <==> x < 0x8000_0000
    ensures (r - x) % 0x1_0000_0000 == 0
  {
    if x < 0x8000_0000 then x else x - 0x1_0000_0000
  }

  /** Two's-complement reading of a 64-bit pattern. */
  function Signed64(x: u64): (r: int)
    ensures -0x8000_0000_0000_0000 <= r < 0x8000_0000_0000_0000
    ensures r >= 0 <==> x < 0x8000_0000_0000_0000
    ensures (r - x) % 0x1_0000_0000_0000_0000 == 0
  {
    if x < 0x8000_0000_0000_0000 then x else x - 0x1_0000_0000_0000_0000
  }

  /** The first four bytes of the union (little-endian). */
  function Low32(x: u64): (r: nat)
    ensures r < 0x1_0000_0000
  {
    x % 0x1_0000_0000
  }

  /** `asNull()`: a parsed null. */
  function AsNull(t: Token): (r: Checked<()>)
    ensures r.Ok? <==> DecodeType(t.word) == Some(Null) && IsParsed(t)
  {
    if TypeOf(t) == TypeNull && IsParsed(t) then Ok(()) else AssertionFailure
  }

  /** `asBool()`: a parsed bool, read from the first byte of the union. */
  function AsBool(t: Token): (r: Checked<bool>)
    ensures r.Ok? <==> DecodeType(t.word) == Some(Bool) && IsParsed(t)
  {
    if TypeOf(t) == TypeBool && IsParsed(t) then Ok(t.payload % 0x100 != 0) else AssertionFailure
  }

  /** `asDouble()`: the bit pattern of the parsed double. */
  function AsDouble(t: Token): (r: Checked<u64>)
    ensures r.Ok? <==> DecodeParsedType(t.word) == Double
  {
    if ParsedTypeOf(t) == Double.Value() then Ok(t.payload) else AssertionFailure
  }

  /** `asFloat()`: the bit pattern of the parsed float. */
  function AsFloat(t: Token): (r: Checked<nat>)
    ensures r.Ok? <==> DecodeParsedType(t.word) == Float
  {
    if ParsedTypeOf(t) == Float.Value() then Ok(Low32(t.payload)) else AssertionFailure
  }

  function AsUnsignedInt(t: Token): (r: Checked<nat>)
    ensures r.Ok? <==> DecodeParsedType(t.word) == UnsignedInt
    ensures r.Ok? ==> r.value < 0x1_0000_0000
  {
    if ParsedTypeOf(t) == UnsignedInt.Value() then Ok(Low32(t.payload)) else AssertionFailure
  }

  function AsInt(t: Token): (r: Checked<int>)
    ensures r.Ok? <==> DecodeParsedType(t.word) == Int
    ensures r.Ok? ==> -0x8000_0000 <= r.value < 0x8000_0000
  {
    if ParsedTypeOf(t) == Int.Value() then Ok(Signed32(Low32(t.payload))) else AssertionFailure
  }

  function AsUnsignedLong(t: Token): (r: Checked<nat>)
    ensures r.Ok? <==> DecodeParsedType(t.word) == UnsignedLong
    ensures r.Ok? ==> r.value < 0x1_0000_0000_0000_0000
  {
    if ParsedTypeOf(t) == UnsignedLong.Value() then Ok(t.payload as nat) else AssertionFailure
  }

  function AsLong(t: Token): (r: Checked<int>)
    ensures r.Ok? <==> DecodeParsedType(t.word) == Long
    ensures r.Ok? ==> -0x8000_0000_0000_0000 <= r.value < 0x8000_0000_0000_0000
  {
    if ParsedTypeOf(t) == Long.Value() then Ok(Signed64(t.payload)) else AssertionFailure
  }

  function AsSize(t: Token): (r: Checked<nat>)
    ensures r.Ok? <==> DecodeParsedType(t.word) == SizeParsedType
  {
    if ParsedTypeOf(t) == SizeParsedType.Value() then Ok(t.payload as nat) else AssertionFailure
  }

  /** On a 64-bit target `asSize()` accepts exactly what `asUnsignedLong()` accepts and returns the same value. */
  lemma AsSizeIsAsUnsignedLong(t: Token)
    ensures AsSize(t) == AsUnsignedLong(t)
  {
  }

  /** Every successful getter implies `isParsed()`, and at most one numeric getter accepts a token. */
  lemma NumericGettersExclusive(t: Token)
    ensures (AsDouble(t).Ok? || AsFloat(t).Ok? || AsUnsignedInt(t).Ok? || AsInt(t).Ok? ||
             AsUnsignedLong(t).Ok? || AsLong(t).Ok?) ==> IsParsed(t)
    ensures (AsNull(t).Ok? || AsBool(t).Ok?) ==> IsParsed(t)
    ensures AsDouble(t).Ok? ==> !AsFloat(t).Ok? && !AsUnsignedInt(t).Ok? && !AsInt(t).Ok?
                                && !AsUnsignedLong(t).Ok? && !AsLong(t).Ok?
    ensures AsFloat(t).Ok? ==> !AsUnsignedInt(t).Ok? && !AsInt(t).Ok?
                               && !AsUnsignedLong(t).Ok? && !AsLong(t).Ok?
    ensures AsUnsignedInt(t).Ok? ==> !AsInt(t).Ok? && !AsUnsignedLong(t).Ok? && !AsLong(t).Ok?
    ensures AsInt(t).Ok? ==> !AsUnsignedLong(t).Ok? && !AsLong(t).Ok?
    ensures AsUnsignedLong(t).Ok? ==> !AsLong(t).Ok?
  {
    IsParsedIffNotNone(t);
  }

  // ---------------------------------------------------------------------
  // Parsing options

  const ParseLiterals: bv32 := 1 << 0
  const ParseDoubles: bv32 := 1 << 1
  const ParseFloats: bv32 := 1 << 2
  const ParseStringKeys: bv32 := 1 << 3
  const ParseStrings: bv32 := ParseStringKeys | (1 << 4)

  /** An option set that asks for string values also asks for string keys. */
  lemma ParseStringsImpliesKeys(options: bv32)
    requires options & ParseStrings == ParseStrings
    ensures options & ParseStringKeys == ParseStringKeys
  {
  }
}
