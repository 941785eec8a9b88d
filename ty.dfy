/** The mapping from interface value types to Java types (`ty.rs`), and
    the `org.javatuples` type that carries several results. */
module JavaTypes {
  import opened Wrappers
  import opened Text
  import Wit

  /** A Java primitive. */
  datatype JavaType = Byte | Short | Int | Long | Float | Double | Char | Boolean

  /** `impl From<Type> for JavaType`: Java has no unsigned integers, so each
      unsigned width moves up to a wider signed type; handles and named
      types are not supported and abort the pass. */
  function FromType(t: Wit.Type): Result<JavaType, GenError>
  {
    match t
    case U8 => Success(Short)
    case U16 => Success(Int)
    case U32 => Success(Long)
    case U64 => Success(Long)
    case S8 => Success(Byte)
    case S16 => Success(Short)
    case S32 => Success(Int)
    case S64 => Success(Long)
    case F32 => Success(Float)
    case F64 => Success(Double)
    case Char => Success(Char)
    case CChar => Success(Char)
    case Usize => Success(Long)
    case Handle(_) => Failure(HandleUnsupported)
    case Id(_) => Failure(TypeIdUnsupported)
  }

  /** Mapping fails exactly on handles and named types, each with its own
      message, and no interface type becomes `boolean`. */
  lemma FromTypeFailsIff(t: Wit.Type)
    ensures FromType(t).Failure? <==> t.Handle? || t.Id?
    ensures t.Handle? ==> FromType(t) == Failure(HandleUnsupported)
    ensures t.Id? ==> FromType(t) == Failure(TypeIdUnsupported)
    ensures FromType(t) != Success(Boolean)
  {
  }

  /** The values of an integer interface type, as `(least, greatest)`.
      `usize` is the 32-bit size type of the 32-bit virtual machine. */
  function WitIntRange(t: Wit.Type): Option<(int, int)>
  {
    match t
    case U8 => Some((0, 0xFF))
    case U16 => Some((0, 0xFFFF))
    case U32 => Some((0, 0xFFFF_FFFF))
    case U64 => Some((0, 0xFFFF_FFFF_FFFF_FFFF))
    case S8 => Some((-0x80, 0x7F))
    case S16 => Some((-0x8000, 0x7FFF))
    case S32 => Some((-0x8000_0000, 0x7FFF_FFFF))
    case S64 => Some((-0x8000_0000_0000_0000, 0x7FFF_FFFF_FFFF_FFFF))
    case Usize => Some((0, 0xFFFF_FFFF))
    case _ => None
  }

  /** The values of a Java integral primitive, as `(least, greatest)`. */
  function JavaIntRange(j: JavaType): Option<(int, int)>
  {
    match j
    case Byte => Some((-0x80, 0x7F))
    case Short => Some((-0x8000, 0x7FFF))
    case Int => Some((-0x8000_0000, 0x7FFF_FFFF))
    case Long => Some((-0x8000_0000_0000_0000, 0x7FFF_FFFF_FFFF_FFFF))
    case Char => Some((0, 0xFFFF))
    case _ => None
  }

  /** Every integer type except `u64` lands on a Java integral type that
      holds all of its values; `u64` lands on `long`, which does not. */
  lemma IntegerMappingHoldsRange(t: Wit.Type)
    requires WitIntRange(t).Some?
    ensures FromType(t).Success? && JavaIntRange(FromType(t).value).Some?
    ensures var (lo, hi) := WitIntRange(t).value;
            var (jlo, jhi) := JavaIntRange(FromType(t).value).value;
            (jlo <= lo && hi <= jhi) <==> t != Wit.U64
  {
  }

  /** `for_fn_param`: the primitive keyword, used in signatures. */
  function ForFnParam(j: JavaType): string
  {
    match j
    case Short => "short"
    case Int => "int"
    case Long => "long"
    case Byte => "byte"
    case Float => "float"
    case Double => "double"
    case Char => "char"
    case Boolean => "boolean"
  }

  /** `for_fn_return`: the same keyword as for a parameter. */
  function ForFnReturn(j: JavaType): string
  {
    ForFnParam(j)
  }

  /** `for_type_param`: the boxed class, used as a generic argument. */
  function ForTypeParam(j: JavaType): string
  {
    match j
    case Short => "Short"
    case Int => "Integer"
    case Long => "Long"
    case Byte => "Byte"
    case Float => "Float"
    case Double => "Double"
    case Char => "Character"
    case Boolean => "Boolean"
  }

  predicate IsLowerAscii(s: string)
  {
    forall i :: 0 <= i < |s| ==> 'a' <= s[i] <= 'z'
  }

  function Capitalised(s: string): string
  {
    if s == [] then s
    else if 'a' <= s[0] <= 'z' then [(s[0] as int - 'a' as int + 'A' as int) as char] + s[1..]
    else s
  }

  /** The keyword renderings are distinct lower-case words, the same for a
      parameter and a return value. */
  lemma KeywordsDistinctLowercase(a: JavaType, b: JavaType)
    ensures ForFnReturn(a) == ForFnParam(a)
    ensures IsLowerAscii(ForFnParam(a)) && ForFnParam(a) != ""
    ensures a != b ==> ForFnParam(a) != ForFnParam(b)
  {
  }

  /** The boxed rendering is the capitalised keyword, except `Integer` for
      `int` and `Character` for `char`. */
  lemma BoxedNameCapitalised(a: JavaType)
    ensures a == Int ==> ForTypeParam(a) == "Integer"
    ensures a == Char ==> ForTypeParam(a) == "Character"
    ensures a != Int && a != Char ==> ForTypeParam(a) == Capitalised(ForFnParam(a))
  {
    match a
    case Short =>
    case Int =>
    case Long =>
    case Byte =>
    case Float =>
    case Double =>
    case Char =>
    case Boolean =>
  }

  /** Distinct types get distinct boxed names: the name reads back as its
      type. */
  lemma BoxedNamesDistinct(a: JavaType, b: JavaType)
    ensures a != b ==> ForTypeParam(a) != ForTypeParam(b)
  {
    BoxedRoundTrip(a);
    BoxedRoundTrip(b);
  }

  /** `JavaTuple`: the `org.javatuples` classes by arity. */
  datatype JavaTuple = Unit | Pair | Triplet | Quartet | Quintet | Sextet | Septet | Octet | Ennead | Decade

  function ToStr(t: JavaTuple): string
  {
    match t
    case Unit => "Unit"
    case Pair => "Pair"
    case Triplet => "Triplet"
    case Quartet => "Quartet"
    case Quintet => "Quintet"
    case Sextet => "Sextet"
    case Septet => "Septet"
    case Octet => "Octet"
    case Ennead => "Ennead"
    case Decade => "Decade"
  }

  /** The tuple class for `n` elements: none for 0 or more than 10. */
  function TupleOfLength(n: nat): Result<JavaTuple, GenError>
  {
    match n
    case 0 => Failure(EmptyTuple)
    case 1 => Success(Unit)
    case 2 => Success(Pair)
    case 3 => Success(Triplet)
    case 4 => Success(Quartet)
    case 5 => Success(Quintet)
    case 6 => Success(Sextet)
    case 7 => Success(Septet)
    case 8 => Success(Octet)
    case 9 => Success(Ennead)
    case 10 => Success(Decade)
    case _ => Failure(TupleTooLong)
  }

  function BoxedNames(types: seq<JavaType>): (r: seq<string>)
    ensures |r| == |types|
    ensures forall i :: 0 <= i < |types| ==> r[i] == ForTypeParam(types[i])
  {
    if types == [] then [] else [ForTypeParam(types[0])] + BoxedNames(types[1..])
  }

  /** `JavaTupleType::for_ty`: `Word<Boxed1, ..., BoxedN>`. */
  function ForTy(types: seq<JavaType>): Result<string, GenError>
  {
    match TupleOfLength(|types|)
    case Failure(e) => Failure(e)
    case Success(tuple) => Success(ToStr(tuple) + "<" + Join(", ", BoxedNames(types)) + ">")
  }

  /** `for_ty` fails for no elements and for more than ten, and only then. */
  lemma ForTyFailsIff(types: seq<JavaType>)
    ensures ForTy(types).Failure? <==> |types| == 0 || |types| > 10
    ensures |types| == 0 ==> ForTy(types) == Failure(EmptyTuple)
    ensures |types| > 10 ==> ForTy(types) == Failure(TupleTooLong)
  {
  }

  // Reading a rendered tuple type back: the inverse of `ForTy`.

  function ParseBoxed(name: string): Option<JavaType>
  {
    if name == "Byte" then Some(Byte)
    else if name == "Short" then Some(Short)
    else if name == "Integer" then Some(Int)
    else if name == "Long" then Some(Long)
    else if name == "Float" then Some(Float)
    else if name == "Double" then Some(Double)
    else if name == "Character" then Some(Char)
    else if name == "Boolean" then Some(Boolean)
    else None
  }

  function WordArity(word: string): Option<nat>
  {
    if word == "Unit" then Some(1)
    else if word == "Pair" then Some(2)
    else if word == "Triplet" then Some(3)
    else if word == "Quartet" then Some(4)
    else if word == "Quintet" then Some(5)
    else if word == "Sextet" then Some(6)
    else if word == "Septet" then Some(7)
    else if word == "Octet" then Some(8)
    else if word == "Ennead" then Some(9)
    else if word == "Decade" then Some(10)
    else None
  }

  /** Boxed names separated by `", "`. */
  function ParseTypeList(s: string): Option<seq<JavaType>>
    decreases |s|
  {
    var k := IndexOf(s, ',');
    match ParseBoxed(s[..k])
    case None => None
    case Some(t) =>
      if k == |s| then Some([t])
      else if k + 1 < |s| && s[k + 1] == ' ' then
        match ParseTypeList(s[k + 2..])
        case None => None
        case Some(ts) => Some([t] + ts)
      else None
  }

  /** `Word<list>` where the word gives the length of the list. */
  function ParseTupleType(s: string): Option<seq<JavaType>>
  {
    var k := IndexOf(s, '<');
    if k + 2 > |s| || s[|s| - 1] != '>' then None
    else
      match (WordArity(s[..k]), ParseTypeList(s[k + 1..|s| - 1]))
      case (Some(n), Some(ts)) => if |ts| == n then Some(ts) else None
      case _ => None
  }

  lemma BoxedRoundTrip(t: JavaType)
    ensures ParseBoxed(ForTypeParam(t)) == Some(t)
    ensures ',' !in ForTypeParam(t) && ForTypeParam(t) != ""
  {
  }

  lemma WordRoundTrip(n: nat)
    requires 1 <= n <= 10
    ensures TupleOfLength(n).Success?
    ensures WordArity(ToStr(TupleOfLength(n).value)) == Some(n)
    ensures '<' !in ToStr(TupleOfLength(n).value)
  {
  }

  lemma {:induction false} TypeListRoundTrip(types: seq<JavaType>)
    requires types != []
    ensures ParseTypeList(Join(", ", BoxedNames(types))) == Some(types)
    decreases |types|
  {
    if |types| == 1 {
      TypeListOne(types[0]);
      assert types == [types[0]];
    } else {
      TypeListRoundTrip(types[1..]);
      TypeListCons(types);
    }
  }

  lemma TypeListOne(t: JavaType)
    ensures ParseTypeList(Join(", ", BoxedNames([t]))) == Some([t])
  {
    BoxedRoundTrip(t);
    assert Join(", ", BoxedNames([t])) == ForTypeParam(t);
    TypeListLast(ForTypeParam(t), t);
  }

  lemma TypeListCons(types: seq<JavaType>)
    requires |types| >= 2
    requires ParseTypeList(Join(", ", BoxedNames(types[1..]))) == Some(types[1..])
    ensures ParseTypeList(Join(", ", BoxedNames(types))) == Some(types)
  {
    var names := BoxedNames(types);
    BoxedRoundTrip(types[0]);
    assert names[1..] == BoxedNames(types[1..]);
    var rest := Join(", ", names[1..]);
    CommaSpace(names, rest);
    TypeListNext(names[0], types[0], rest, types[1..]);
    ConsTail(types);
  }

  lemma CommaSpace(names: seq<string>, rest: string)
    requires |names| >= 2 && rest == Join(", ", names[1..])
    ensures Join(", ", names) == names[0] + [','] + (" " + rest)
  {
  }

  lemma ConsTail<T>(s: seq<T>)
    requires s != []
    ensures [s[0]] + s[1..] == s
  {
  }

  /** The last name of a list: no comma follows it. */
  lemma TypeListLast(head: string, t: JavaType)
    requires ParseBoxed(head) == Some(t) && ',' !in head
    ensures ParseTypeList(head) == Some([t])
  {
    IndexOfSpec(head, ',');
    assert IndexOf(head, ',') == |head|;
    assert head[..|head|] == head;
  }

  /** A name, `, ` and the rest of the list. */
  lemma TypeListNext(head: string, t: JavaType, rest: string, ts: seq<JavaType>)
    requires ParseBoxed(head) == Some(t) && ',' !in head
    requires ParseTypeList(rest) == Some(ts)
    ensures ParseTypeList(head + [','] + (" " + rest)) == Some([t] + ts)
  {
    var s := head + [','] + (" " + rest);
    IndexOfAfterPrefix(head, ',', " " + rest);
    assert s[..|head|] == head;
    assert s[|head| + 1] == ' ';
    assert s[|head| + 2..] == rest;
  }

  /** Reading back what `for_ty` renders gives the element types again: the
      rendering loses nothing, and the word agrees with the length. */
  lemma ForTyRoundTrip(types: seq<JavaType>)
    requires 1 <= |types| <= 10
    ensures ForTy(types).Success?
    ensures ParseTupleType(ForTy(types).value) == Some(types)
  {
    WordRoundTrip(|types|);
    var word := ToStr(TupleOfLength(|types|).value);
    var list := Join(", ", BoxedNames(types));
    var s := word + ['<'] + (list + ">");
    assert ForTy(types).value == s;
    IndexOfAfterPrefix(word, '<', list + ">");
    assert s[..|word|] == word;
    assert s[|word| + 1..|s| - 1] == list;
    TypeListRoundTrip(types);
  }

  /** So `for_ty` never renders two different lists the same way. */
  lemma ForTyInjective(a: seq<JavaType>, b: seq<JavaType>)
    requires ForTy(a).Success? && ForTy(b).Success?
    requires ForTy(a) == ForTy(b)
    ensures a == b
  {
    ForTyFailsIff(a);
    ForTyFailsIff(b);
    ForTyRoundTrip(a);
    ForTyRoundTrip(b);
  }
}
