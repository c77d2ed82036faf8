/**
 JSON values, their token streams, and decoding that rejects repeated member names
 (internal/pkg/idempotency/json.go). Spelling inside a token is the tokenizer's business: a
 number keeps its lexical form, and a string stands for its decoded text.
 */
module JsonValues {
  import opened Prelude

  datatype Atom = Null | Bool(b: bool) | Number(text: string) | Str(s: string)

  datatype Json = Leaf(atom: Atom) | Object(members: Members) | Array(items: Items)
  datatype Members = NoMember | Member(name: string, value: Json, rest: Members)
  datatype Items = NoItem | Item(value: Json, rest: Items)

  datatype Token = BeginObject | EndObject | BeginArray | EndArray | Scalar(atom: Atom)

  datatype Error = EndOfInput | Syntax | TooDeep | Duplicate(name: string) | Trailing | NotAnObject

  datatype Decoded<T> = Ok(value: T, rest: seq<Token>) | Err(error: Error)

  const MAX_JSON_NESTING_DEPTH := 100

  // ---------------------------------------------------------------- printing

  function Print(j: Json): (ts: seq<Token>)
    ensures ts != [] && ts[0] != EndObject && ts[0] != EndArray
  {
    match j
    case Leaf(atom) => [Scalar(atom)]
    case Object(members) => [BeginObject] + PrintMembers(members)
    case Array(items) => [BeginArray] + PrintItems(items)
  }

  function PrintMembers(ms: Members): (ts: seq<Token>)
    ensures ts != []
  {
    match ms
    case NoMember => [EndObject]
    case Member(name, value, rest) => [Scalar(Str(name))] + Print(value) + PrintMembers(rest)
  }

  function PrintItems(items: Items): (ts: seq<Token>)
    ensures ts != []
  {
    match items
    case NoItem => [EndArray]
    case Item(value, rest) => Print(value) + PrintItems(rest)
  }

  // ---------------------------------------------------------------- decoding

  function Decode(ts: seq<Token>, depth: nat): (d: Decoded<Json>)
    ensures d.Ok? ==> |d.rest| < |ts|
    decreases |ts|, 0
  {
    if ts == [] then Err(EndOfInput)
    else
      match ts[0]
      case Scalar(atom) => Ok(Leaf(atom), ts[1..])
      case EndObject => Err(Syntax)
      case EndArray => Err(Syntax)
      case BeginObject =>
        if MAX_JSON_NESTING_DEPTH <= depth then Err(TooDeep)
        else (match DecodeMembers(ts[1..], {}, depth + 1) case Ok(ms, rest) => Ok(Object(ms), rest) case Err(e) => Err(e))
      case BeginArray =>
        if MAX_JSON_NESTING_DEPTH <= depth then Err(TooDeep)
        else (match DecodeItems(ts[1..], depth + 1) case Ok(items, rest) => Ok(Array(items), rest) case Err(e) => Err(e))
  }

  /** The members up to the closing brace; `seen` are the names of the object so far. */
  function DecodeMembers(ts: seq<Token>, seen: set<string>, depth: nat): (d: Decoded<Members>)
    ensures d.Ok? ==> |d.rest| < |ts|
    decreases |ts|, 1
  {
    if ts == [] then Err(EndOfInput)
    else if ts[0].EndObject? then Ok(NoMember, ts[1..])
    else if !ts[0].Scalar? || !ts[0].atom.Str? then Err(Syntax)
    else
      var name := ts[0].atom.s;
      if name in seen then Err(Duplicate(name))
      else
        match Decode(ts[1..], depth)
        case Err(e) => Err(e)
        case Ok(value, rest) =>
          match DecodeMembers(rest, seen + {name}, depth)
          case Err(e) => Err(e)
          case Ok(ms, after) => Ok(Member(name, value, ms), after)
  }

  function DecodeItems(ts: seq<Token>, depth: nat): (d: Decoded<Items>)
    ensures d.Ok? ==> |d.rest| < |ts|
    decreases |ts|, 1
  {
    if ts == [] then Err(EndOfInput)
    else if ts[0].EndArray? then Ok(NoItem, ts[1..])
    else if ts[0].EndObject? then Err(Syntax)
    else
      match Decode(ts, depth)
      case Err(e) => Err(e)
      case Ok(value, rest) =>
        match DecodeItems(rest, depth)
        case Err(e) => Err(e)
        case Ok(items, after) => Ok(Item(value, items), after)
  }

  // ---------------------------------------------------------------- what is acceptable

  function Max(a: nat, b: nat): (m: nat) {
    if a < b then b else a
  }

  /** How many composites are nested in one another. */
  function Depth(j: Json): (n: nat) {
    match j
    case Leaf(_) => 0
    case Object(ms) => 1 + DepthOfMembers(ms)
    case Array(items) => 1 + DepthOfItems(items)
  }

  function DepthOfMembers(ms: Members): (n: nat) {
    match ms case NoMember => 0 case Member(_, value, rest) => Max(Depth(value), DepthOfMembers(rest))
  }

  function DepthOfItems(items: Items): (n: nat) {
    match items case NoItem => 0 case Item(value, rest) => Max(Depth(value), DepthOfItems(rest))
  }

  function Names(ms: Members): (names: set<string>) {
    match ms case NoMember => {} case Member(name, _, rest) => {name} + Names(rest)
  }

  /** No object, at any level, has two members of one name. */
  predicate Distinct(j: Json) {
    match j
    case Leaf(_) => true
    case Object(ms) => DistinctMembers(ms)
    case Array(items) => DistinctItems(items)
  }

  predicate DistinctMembers(ms: Members) {
    match ms
    case NoMember => true
    case Member(name, value, rest) => name !in Names(rest) && Distinct(value) && DistinctMembers(rest)
  }

  predicate DistinctItems(items: Items) {
    match items case NoItem => true case Item(value, rest) => Distinct(value) && DistinctItems(rest)
  }

  /** The limits are as the decoder counts them, from a depth already reached. */
  predicate Fits(j: Json, depth: nat) {
    Distinct(j) && (Depth(j) == 0 || depth + Depth(j) <= MAX_JSON_NESTING_DEPTH)
  }

  predicate MembersFit(ms: Members, seen: set<string>, depth: nat) {
    && DistinctMembers(ms) && Names(ms) !! seen
    && (DepthOfMembers(ms) == 0 || depth + DepthOfMembers(ms) <= MAX_JSON_NESTING_DEPTH)
  }

  predicate ItemsFit(items: Items, depth: nat) {
    DistinctItems(items) && (DepthOfItems(items) == 0 || depth + DepthOfItems(items) <= MAX_JSON_NESTING_DEPTH)
  }

  // ---------------------------------------------------------------- decoding inverts printing

  /** A printed value is accepted, and comes back as itself, exactly when it is not nested too
      deeply and no object in it repeats a member name. */
  lemma {:induction false} DecodeInvertsPrint(j: Json, after: seq<Token>, depth: nat)
    requires depth <= MAX_JSON_NESTING_DEPTH
    ensures Fits(j, depth) ==> Decode(Print(j) + after, depth) == Ok(j, after)
    ensures !Fits(j, depth) ==> Decode(Print(j) + after, depth).Err?
    decreases j
  {
    var ts := Print(j) + after;
    match j
    case Leaf(atom) => assert ts[1..] == after;
    case Object(ms) =>
      assert ts[1..] == PrintMembers(ms) + after;
      if depth < MAX_JSON_NESTING_DEPTH { MembersInvertPrint(ms, after, {}, depth + 1); }
    case Array(items) =>
      assert ts[1..] == PrintItems(items) + after;
      if depth < MAX_JSON_NESTING_DEPTH { ItemsInvertPrint(items, after, depth + 1); }
  }

  lemma {:induction false} MembersInvertPrint(ms: Members, after: seq<Token>, seen: set<string>, depth: nat)
    requires depth <= MAX_JSON_NESTING_DEPTH
    ensures MembersFit(ms, seen, depth) ==> DecodeMembers(PrintMembers(ms) + after, seen, depth) == Ok(ms, after)
    ensures !MembersFit(ms, seen, depth) ==> DecodeMembers(PrintMembers(ms) + after, seen, depth).Err?
    decreases ms
  {
    var ts := PrintMembers(ms) + after;
    match ms
    case NoMember => assert ts[1..] == after;
    case Member(name, value, rest) =>
      assert ts[1..] == Print(value) + (PrintMembers(rest) + after);
      DecodeInvertsPrint(value, PrintMembers(rest) + after, depth);
      MembersInvertPrint(rest, after, seen + {name}, depth);
  }

  lemma {:induction false} ItemsInvertPrint(items: Items, after: seq<Token>, depth: nat)
    requires depth <= MAX_JSON_NESTING_DEPTH
    ensures ItemsFit(items, depth) ==> DecodeItems(PrintItems(items) + after, depth) == Ok(items, after)
    ensures !ItemsFit(items, depth) ==> DecodeItems(PrintItems(items) + after, depth).Err?
    decreases items
  {
    var ts := PrintItems(items) + after;
    match items
    case NoItem => assert ts[1..] == after;
    case Item(value, rest) =>
      assert ts == Print(value) + (PrintItems(rest) + after);
      DecodeInvertsPrint(value, PrintItems(rest) + after, depth);
      ItemsInvertPrint(rest, after, depth);
  }

  /** Whatever is accepted is the print of the value returned, so nothing malformed is. */
  lemma {:induction false} DecodeReadsPrint(ts: seq<Token>, depth: nat)
    ensures var d := Decode(ts, depth); d.Ok? ==> ts == Print(d.value) + d.rest
    decreases |ts|, 0
  {
    if ts != [] {
      assert ts == [ts[0]] + ts[1..];
      if ts[0].BeginObject? { MembersReadPrint(ts[1..], {}, depth + 1); }
      if ts[0].BeginArray? { ItemsReadPrint(ts[1..], depth + 1); }
    }
  }

  lemma MemberPrints(name: string, value: Json, ms: Members, after: seq<Token>)
    ensures PrintMembers(Member(name, value, ms)) + after
         == [Scalar(Str(name))] + (Print(value) + (PrintMembers(ms) + after))
  {
    hide Print;
  }

  lemma {:induction false} MembersReadPrint(ts: seq<Token>, seen: set<string>, depth: nat)
    ensures var d := DecodeMembers(ts, seen, depth); d.Ok? ==> ts == PrintMembers(d.value) + d.rest
    decreases |ts|, 1
  {
    if ts != [] {
      assert ts == [ts[0]] + ts[1..];
      DecodeReadsPrint(ts[1..], depth);
      if ts[0].Scalar? && ts[0].atom.Str? && ts[0].atom.s !in seen && Decode(ts[1..], depth).Ok? {
        var name, value := ts[0].atom.s, Decode(ts[1..], depth);
        MembersReadPrint(value.rest, seen + {name}, depth);
        var ms := DecodeMembers(value.rest, seen + {name}, depth);
        if ms.Ok? {
          MemberPrints(name, value.value, ms.value, ms.rest);
        }
      }
    }
  }

  lemma {:induction false} ItemsReadPrint(ts: seq<Token>, depth: nat)
    ensures var d := DecodeItems(ts, depth); d.Ok? ==> ts == PrintItems(d.value) + d.rest
    decreases |ts|, 1
  {
    if ts != [] && !ts[0].EndArray? {
      DecodeReadsPrint(ts, depth);
      if Decode(ts, depth).Ok? {
        ItemsReadPrint(Decode(ts, depth).rest, depth);
      }
    } else if ts != [] {
      assert ts == [ts[0]] + ts[1..];
    }
  }
}
