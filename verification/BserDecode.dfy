/** What the BSER parser returns for any bytes: a value and the bytes left over, or an error. */
module BserDecode {
  import opened Bser
  import opened Options

  datatype ParseError =
    | Eof | BadType | NegativeSize | TooLarge | TooDeep | NotFinite | EmptyTemplate | KeyNotString

  datatype Parsed<+T> = Ok(value: T, rest: Bytes) | Err(error: ParseError)

  function Take(b: Bytes, n: nat): (r: Parsed<Bytes>)
    ensures r.Ok? <==> n <= |b|
    ensures r.Ok? ==> b == r.value + r.rest && |r.value| == n
  {
    if n > |b| then Err(Eof) else Ok(b[..n], b[n..])
  }

  function ParseInteger(tag: byte, b: Bytes): (r: Parsed<Int64>)
    ensures r.Ok? ==> |r.rest| < |b|
  {
    match TagWidth(tag)
    case None => Err(BadType)
    case Some(w) =>
      match Take(b, w)
      case Err(e) => Err(e)
      case Ok(n, rest) => Ok(Signed(FromBytes(n), w), rest)
  }

  function ExpectInteger(b: Bytes): (r: Parsed<Int64>)
    ensures r.Ok? ==> |r.rest| + 2 <= |b|
  {
    if b == [] then Err(Eof) else ParseInteger(b[0], b[1..])
  }

  function ExpectSize(b: Bytes): (r: Parsed<nat>)
    ensures r.Ok? ==> |r.rest| + 2 <= |b| && r.value <= MAX_CONTAINER
  {
    match ExpectInteger(b)
    case Err(e) => Err(e)
    case Ok(n, rest) =>
      if n < 0 then Err(NegativeSize)
      else if n > MAX_CONTAINER then Err(TooLarge)
      else Ok(n, rest)
  }

  function ParseString(b: Bytes): (r: Parsed<Bytes>)
    ensures r.Ok? ==> |r.rest| + 2 <= |b|
  {
    match ExpectSize(b)
    case Err(e) => Err(e)
    case Ok(n, rest) => Take(rest, n)
  }

  function ExpectString(b: Bytes): (r: Parsed<Bytes>)
    ensures r.Ok? ==> |r.rest| + 3 <= |b|
  {
    if b == [] then Err(Eof)
    else if b[0] != BYTESTRING && b[0] != UTF8STRING then Err(BadType)
    else ParseString(b[1..])
  }

  /** std::isfinite: the exponent bits are not all ones. */
  predicate Finite(d: Double) {
    !(d[7] % 128 == 127 && d[6] / 16 == 15)
  }

  function ParseReal(b: Bytes): (r: Parsed<Json>)
    ensures r.Ok? ==> |r.rest| + 8 == |b|
  {
    match Take(b, 8)
    case Err(e) => Err(e)
    case Ok(d, rest) => if Finite(d) then Ok(Real(d), rest) else Err(NotFinite)
  }

  /** unordered_map::emplace: the first value of a key stays. */
  function Emplace(fields: seq<Field>, key: Bytes, v: Json): seq<Field> {
    if Lookup(fields, key).Some? then fields else fields + [Field(key, v)]
  }

  /** unordered_map::insert_or_assign: the last value of a key stays. */
  function Assign(fields: seq<Field>, key: Bytes, v: Json): (r: seq<Field>)
    ensures |r| == if Lookup(fields, key).Some? then |fields| else |fields| + 1
  {
    if fields == [] then [Field(key, v)]
    else if fields[0].key == key then [Field(key, v)] + fields[1..]
    else [fields[0]] + Assign(fields[1..], key, v)
  }

  function ExpectValue(b: Bytes, depth: nat): (r: Parsed<Json>)
    ensures r.Ok? ==> |r.rest| < |b|
    decreases |b|, 4
  {
    if b == [] then Err(Eof) else ParseValue(b[0], b[1..], depth)
  }

  function ParseValue(tag: byte, b: Bytes, depth: nat): (r: Parsed<Json>)
    ensures r.Ok? ==> |r.rest| <= |b|
    decreases |b|, 3
  {
    if TagWidth(tag).Some? then
      match ParseInteger(tag, b) {
        case Err(e) => Err(e)
        case Ok(n, rest) => Ok(Integer(n), rest)
      }
    else if tag == BYTESTRING || tag == UTF8STRING then
      match ParseString(b) {
        case Err(e) => Err(e)
        case Ok(s, rest) => Ok(Str(Text(s, if tag == BYTESTRING then Byte else Unicode)), rest)
      }
    else if tag == REAL then ParseReal(b)
    else if tag == TRUE then Ok(True, b)
    else if tag == FALSE then Ok(False, b)
    else if tag == NULL then Ok(Null, b)
    else if tag == ARRAY then
      match ParseArray(b, depth) {
        case Err(e) => Err(e)
        case Ok(vs, rest) => Ok(Array(vs, []), rest)
      }
    else if tag == TEMPLATE then ParseTemplate(b, depth)
    else if tag == OBJECT then ParseObject(b, depth)
    else Err(BadType)
  }

  function ParseArray(b: Bytes, depth: nat): (r: Parsed<seq<Json>>)
    ensures r.Ok? ==> |r.rest| + 2 <= |b|
    decreases |b|, 2
  {
    if depth + 1 == MAX_DEPTH then Err(TooDeep)
    else
      match ExpectSize(b)
      case Err(e) => Err(e)
      case Ok(n, rest) => ParseElems(rest, depth + 1, n, [])
  }

  /** The loop of parseArray: n more elements after those in acc. */
  function ParseElems(b: Bytes, depth: nat, n: nat, acc: seq<Json>): (r: Parsed<seq<Json>>)
    ensures r.Ok? ==> |r.rest| <= |b|
    decreases |b|, 5
  {
    if n == 0 then Ok(acc, b)
    else
      match ExpectValue(b, depth)
      case Err(e) => Err(e)
      case Ok(v, rest) => ParseElems(rest, depth, n - 1, acc + [v])
  }

  function ExpectArray(b: Bytes, depth: nat): (r: Parsed<seq<Json>>)
    ensures r.Ok? ==> |r.rest| + 3 <= |b|
    decreases |b|, 1
  {
    if b == [] then Err(Eof) else if b[0] != ARRAY then Err(BadType) else ParseArray(b[1..], depth)
  }

  predicate AllStrings(vs: seq<Json>) { forall i :: 0 <= i < |vs| ==> vs[i].Str? }

  /** The C-string views of the template keys. */
  function Keys(vs: seq<Json>): (r: seq<Bytes>)
    requires AllStrings(vs)
    ensures |r| == |vs|
  {
    if vs == [] then [] else [CStr(vs[0].text.s)] + Keys(vs[1..])
  }

  function ParseTemplate(b: Bytes, depth: nat): (r: Parsed<Json>)
    ensures r.Ok? ==> |r.rest| <= |b|
    decreases |b|, 2
  {
    if depth + 1 == MAX_DEPTH then Err(TooDeep)
    else
      match ExpectArray(b, depth + 1)
      case Err(e) => Err(e)
      case Ok(templ, b1) =>
        if templ == [] then Err(EmptyTemplate)
        else if !AllStrings(templ) then Err(KeyNotString)
        else
          match ExpectSize(b1)
          case Err(e) => Err(e)
          case Ok(n, b2) => ParseRows(b2, depth + 1, Keys(templ), n, [])
  }

  function ParseRows(b: Bytes, depth: nat, keys: seq<Bytes>, n: nat, acc: seq<Json>): (r: Parsed<Json>)
    requires keys != []
    ensures r.Ok? ==> |r.rest| <= |b|
    decreases |b|, 6
  {
    if n == 0 then Ok(Array(acc, []), b)
    else
      match ParseRow(b, depth, keys, [])
      case Err(e) => Err(e)
      case Ok(fields, rest) => ParseRows(rest, depth, keys, n - 1, acc + [Object(fields)])
  }

  function ParseRow(b: Bytes, depth: nat, keys: seq<Bytes>, acc: seq<Field>): (r: Parsed<seq<Field>>)
    ensures r.Ok? ==> |r.rest| + |keys| <= |b|
    decreases |b|, 5
  {
    if keys == [] then Ok(acc, b)
    else if b == [] then Err(Eof)
    else if b[0] == SKIP then ParseRow(b[1..], depth, keys[1..], acc)
    else
      match ParseValue(b[0], b[1..], depth)
      case Err(e) => Err(e)
      case Ok(v, rest) => ParseRow(rest, depth, keys[1..], Assign(acc, keys[0], v))
  }

  function ParseObject(b: Bytes, depth: nat): (r: Parsed<Json>)
    ensures r.Ok? ==> |r.rest| <= |b|
    decreases |b|, 2
  {
    if depth + 1 == MAX_DEPTH then Err(TooDeep)
    else
      match ExpectSize(b)
      case Err(e) => Err(e)
      case Ok(n, rest) => ParseFields(rest, depth + 1, n, [])
  }

  function ParseFields(b: Bytes, depth: nat, n: nat, acc: seq<Field>): (r: Parsed<Json>)
    ensures r.Ok? ==> |r.rest| <= |b|
    decreases |b|, 5
  {
    if n == 0 then Ok(Object(acc), b)
    else
      match ExpectString(b)
      case Err(e) => Err(e)
      case Ok(key, b1) =>
        match ExpectValue(b1, depth)
        case Err(e) => Err(e)
        case Ok(v, b2) => ParseFields(b2, depth, n - 1, Emplace(acc, key, v))
  }

  /** bunser */
  function Decode(b: Bytes): Parsed<Json> {
    ExpectValue(b, 0)
  }
}
