/**
 The decoder as code that consumes tokens (internal/pkg/idempotency/json.go), proved against
 JsonValues.
 */
module JsonDecoder {
  import opened Prelude
  import opened JsonValues
  import opened CanonicalJson

  class Decoder {
    const tokens: seq<Token>
    var pos: nat

    constructor (tokens: seq<Token>)
      ensures this.tokens == tokens && pos == 0
    {
      this.tokens, pos := tokens, 0;
    }

    ghost predicate Valid()
      reads this
    {
      pos <= |tokens|
    }

    function Rest(): (ts: seq<Token>)
      requires Valid()
      reads this
    {
      tokens[pos..]
    }

    /** Whether another element follows in the current array or object. */
    predicate More()
      requires Valid()
      reads this
    {
      pos < |tokens| && tokens[pos] != EndObject && tokens[pos] != EndArray
    }

    /** Decodes one value. After an error the position does not matter. */
    method DecodeUniqueValue(depth: nat) returns (d: Decoded<Json>)
      requires Valid()
      modifies this
      ensures Valid() && old(pos) <= pos && d == Decode(old(Rest()), depth)
      ensures d.Ok? ==> d.rest == Rest() && old(pos) < pos
      decreases |tokens| - pos, 0
    {
      if pos == |tokens| {
        return Err(EndOfInput);
      }
      var token := tokens[pos];
      if token.EndObject? || token.EndArray? {
        return Err(Syntax);
      }
      pos := pos + 1;
      assert Rest() == old(Rest())[1..];
      if token.Scalar? {
        return Ok(Leaf(token.atom), Rest());
      }
      if MAX_JSON_NESTING_DEPTH <= depth {
        return Err(TooDeep);
      }
      if token.BeginObject? {
        var members := DecodeObject(depth + 1);
        return if members.Ok? then Ok(Object(members.value), members.rest) else Err(members.error);
      }
      var items := DecodeArray(depth + 1);
      return if items.Ok? then Ok(Array(items.value), items.rest) else Err(items.error);
    }

    method DecodeObject(depth: nat) returns (d: Decoded<Members>)
      requires Valid()
      modifies this
      ensures Valid() && old(pos) <= pos && d == DecodeMembers(old(Rest()), {}, depth)
      ensures d.Ok? ==> d.rest == Rest() && old(pos) < pos
      decreases |tokens| - pos, 1
    {
      var members: seq<(string, Json)>, keys: set<string> := [], {};
      while More()
        invariant Valid() && old(pos) <= pos
        invariant DecodeMembers(old(Rest()), {}, depth) == AfterMembers(members, DecodeMembers(Rest(), keys, depth))
        decreases |tokens| - pos
      {
        if !tokens[pos].Scalar? || !tokens[pos].atom.Str? {
          return Err(Syntax);
        }
        var key := tokens[pos].atom.s;
        if key in keys {
          return Err(Duplicate(key));
        }
        ghost var before := Rest();
        pos := pos + 1;
        assert Rest() == before[1..];
        var value := DecodeUniqueValue(depth);
        if value.Err? {
          return Err(value.error);
        }
        AfterOneMember(members, (key, value.value), DecodeMembers(Rest(), keys + {key}, depth));
        members := members + [(key, value.value)];
        keys := keys + {key};
      }
      if pos == |tokens| {
        return Err(EndOfInput);
      }
      if tokens[pos].EndArray? {
        return Err(Syntax);
      }
      assert Rest()[1..] == tokens[pos + 1..];
      pos := pos + 1;
      return Ok(WithMembers(members, NoMember), Rest());
    }

    method DecodeArray(depth: nat) returns (d: Decoded<Items>)
      requires Valid()
      modifies this
      ensures Valid() && old(pos) <= pos && d == DecodeItems(old(Rest()), depth)
      ensures d.Ok? ==> d.rest == Rest() && old(pos) < pos
      decreases |tokens| - pos, 1
    {
      var elements: seq<Json> := [];
      while More()
        invariant Valid() && old(pos) <= pos
        invariant DecodeItems(old(Rest()), depth) == AfterItems(elements, DecodeItems(Rest(), depth))
        decreases |tokens| - pos
      {
        var value := DecodeUniqueValue(depth);
        if value.Err? {
          return Err(value.error);
        }
        AfterOneItem(elements, value.value, DecodeItems(Rest(), depth));
        elements := elements + [value.value];
      }
      if pos == |tokens| {
        return Err(EndOfInput);
      }
      if tokens[pos].EndObject? {
        return Err(Syntax);
      }
      assert Rest()[1..] == tokens[pos + 1..];
      pos := pos + 1;
      return Ok(WithItems(elements, NoItem), Rest());
    }
  }

  /** Decodes one value and requires the input to end there. */
  method Canonicalize(tokens: seq<Token>) returns (r: Decoded<seq<Token>>)
    ensures r == CanonicalJSON(tokens)
  {
    var decoder := new Decoder(tokens);
    assert decoder.Rest() == tokens;
    var value := decoder.DecodeUniqueValue(0);
    if value.Err? {
      return Err(value.error);
    }
    if decoder.pos != |tokens| {
      return Err(Trailing);
    }
    return Ok(Print(Sorted(value.value)), []);
  }

  // ---------------------------------------------------------------- accumulated members

  function WithMembers(members: seq<(string, Json)>, ms: Members): (r: Members) {
    if members == [] then ms else Member(members[0].0, members[0].1, WithMembers(members[1..], ms))
  }

  function AfterMembers(members: seq<(string, Json)>, d: Decoded<Members>): (r: Decoded<Members>) {
    match d case Err(e) => Err(e) case Ok(ms, rest) => Ok(WithMembers(members, ms), rest)
  }

  function WithItems(elements: seq<Json>, items: Items): (r: Items) {
    if elements == [] then items else Item(elements[0], WithItems(elements[1..], items))
  }

  function AfterItems(elements: seq<Json>, d: Decoded<Items>): (r: Decoded<Items>) {
    match d case Err(e) => Err(e) case Ok(items, rest) => Ok(WithItems(elements, items), rest)
  }

  lemma {:induction false} WithOneMember(members: seq<(string, Json)>, e: (string, Json), ms: Members)
    ensures WithMembers(members + [e], ms) == WithMembers(members, Member(e.0, e.1, ms))
  {
    if members != [] {
      WithOneMember(members[1..], e, ms);
      assert (members + [e])[1..] == members[1..] + [e];
    }
  }

  lemma AfterOneMember(members: seq<(string, Json)>, e: (string, Json), d: Decoded<Members>)
    ensures AfterMembers(members + [e], d)
         == (match d case Err(x) => Err(x) case Ok(ms, rest) => AfterMembers(members, Ok(Member(e.0, e.1, ms), rest)))
  {
    if d.Ok? { WithOneMember(members, e, d.value); }
  }

  lemma {:induction false} WithOneItem(elements: seq<Json>, e: Json, items: Items)
    ensures WithItems(elements + [e], items) == WithItems(elements, Item(e, items))
  {
    if elements != [] {
      WithOneItem(elements[1..], e, items);
      assert (elements + [e])[1..] == elements[1..] + [e];
    }
  }

  lemma AfterOneItem(elements: seq<Json>, e: Json, d: Decoded<Items>)
    ensures AfterItems(elements + [e], d)
         == (match d case Err(x) => Err(x) case Ok(items, rest) => AfterItems(elements, Ok(Item(e, items), rest)))
  {
    if d.Ok? { WithOneItem(elements, e, d.value); }
  }
}
