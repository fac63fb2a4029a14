/** The streaming validator: the same language, read without building a tree. */
module JsonValidator {
  import opened Journals
  import opened Json
  import opened CanonicalJson
  import opened JsonDecoder

  method ValidateArray(decoder: Decoder, depth: nat) returns (ok: bool)
    requires decoder.Valid() && InArray(decoder.View(), 0)
    modifies decoder
    ensures decoder.Valid() && (ok <==> ParseItems(old(decoder.View()).rest, depth, 0).Good?)
    ensures ok ==> decoder.View() == Popped(old(decoder.View()), ParseItems(old(decoder.View()).rest, depth, 0).rest)
    decreases |decoder.View().rest|, 1
  {
    ghost var items: seq<Node> := [];
    ghost var done: seq<Syntax> := [];
    ghost var before := decoder.View();
    ItemsBegin(before, depth);
    var count := 0;
    while true
      invariant decoder.Valid() && ItemsSoFar(before, decoder.View(), depth, items, done) && count == |done|
      decreases |decoder.View().rest|
    {
      var more := decoder.HasMore();
      if !more {
        break;
      }
      ghost var here := decoder.View();
      ItemsAdvance(before, here, depth, items, done);
      count := count + 1;
      if count > MAX_MEMBERS {
        return false;
      }
      var valid := ValidateValue(decoder, depth);
      if !valid {
        return false;
      }
      items, done := items + [ToNode(Outcome(here, depth).value)], done + [Outcome(here, depth).value];
    }
    ItemsFinish(before, decoder.View(), depth, items, done);
    var end := decoder.Next();
    ok := end == Delim(RBracket);
  }

  method ValidateScalar(l: Lexeme) returns (ok: bool)
    ensures ok <==> ScalarNode(l).Some?
  {
    match l
    case StrLit(t) => return |t| <= MAX_STRING;
    case NumLit(t) => ok := ValidInteger(t);
    case NullLit => return true;
    case BoolLit(_) => return true;
    case _ => return false;
  }

  method ValidateValue(decoder: Decoder, depth: nat) returns (ok: bool)
    requires decoder.Valid() && Expects(decoder.state)
    modifies decoder
    ensures decoder.Valid() && (ok <==> Outcome(old(decoder.View()), depth).Good?)
    ensures ok ==>
      var r := Outcome(old(decoder.View()), depth);
      decoder.View() == After(old(decoder.View()), r.rest) && |r.rest| < |old(decoder.View()).rest|
    decreases |decoder.View().rest|, 0
  {
    ghost var before := decoder.View();
    ghost var state := Entered(before.state);
    ValueToken(before);
    var token := decoder.Next();
    if !token.Scalar? && token != Delim(LBracket) && token != Delim(LBrace) {
      if ValueStart(before).Some? { NoValue(ValueStart(before).value, state, before.stack, depth); }
      return false;
    }
    ghost var start := ValueStart(before).value;
    FirstToken(start, state, before.stack, depth);
    if token.Scalar? {
      ScalarToken(start, state, before.stack);
      ScalarValue(start, depth);
      ok := ValidateScalar(token.l);
    } else {
      ok := ValidateNested(decoder, token.l, depth, start, state, before.stack);
    }
  }

  method ValidateNested(decoder: Decoder, open: Lexeme, depth: nat, ghost start: seq<Lexeme>, ghost state: TokenState,
          ghost stack: seq<TokenState>) returns (ok: bool)
    requires decoder.Valid() && start != [] && start[0] == open && (open == LBracket || open == LBrace)
    requires decoder.View() ==
        Standing(start[1..], if open == LBracket then ArrayStart else ObjectStart, stack + [state])
    modifies decoder
    ensures decoder.Valid() && (ok <==> ParseValue(start, depth).Good?)
    ensures ok ==> decoder.View() == Standing(ParseValue(start, depth).rest, ValueEnd(state), stack)
    decreases |decoder.View().rest|, 3
  {
    Nested(start, state, stack, depth);
    if depth >= MAX_DEPTH {
      return false;
    }
    if open == LBrace {
      ok := ValidateObject(decoder, depth + 1);
    } else {
      ok := ValidateArray(decoder, depth + 1);
    }
  }

  /** One member: the key is checked before the count, and the count before the value. */
  method ValidateMember(decoder: Decoder, depth: nat, seen: set<string>,
          count: nat) returns (key: Option<string>, ghost read: Syntax)
    requires decoder.Valid() && InObject(decoder.View(), seen) && More(decoder.View().rest)
    requires count == |seen| <= MAX_MEMBERS
    modifies decoder
    ensures decoder.Valid()
    ensures key.None? ==> ParseMembers(old(decoder.View()).rest, depth, seen).Fail?
    ensures key.Some? ==>
      && |seen| < MAX_MEMBERS && key.value !in seen
      && InObject(decoder.View(), seen + {key.value}) && decoder.stack == old(decoder.stack)
      && |decoder.View().rest| < |old(decoder.View()).rest|
      && ParseMembers(old(decoder.View()).rest, depth, seen)
        == Cons(Json.Member(key.value, read), ParseMembers(decoder.View().rest, depth, seen + {key.value}))
    decreases |decoder.View().rest|, 1
  {
    ghost var here := decoder.View();
    read := SNull;
    KeyToken(here, seen);
    ObjectGoesOn(here, Advance(here).1, depth, seen);
    var token := decoder.Next();
    if !token.Scalar? || !token.l.StrLit? {
      return None, read;
    }
    if |token.l.s| > MAX_STRING || token.l.s in seen {
      return None, read;
    }
    if count + 1 > MAX_MEMBERS {
      return None, read;
    }
    ghost var there := decoder.View();
    var valid := ValidateValue(decoder, depth);
    if !valid {
      return None, read;
    }
    read := Outcome(there, depth).value;
    key := Some(token.l.s);
  }

  method ValidateObject(decoder: Decoder, depth: nat) returns (ok: bool)
    requires decoder.Valid() && InObject(decoder.View(), {})
    modifies decoder
    ensures decoder.Valid() && (ok <==> ParseMembers(old(decoder.View()).rest, depth, {}).Good?)
    ensures ok ==> decoder.View() == Popped(old(decoder.View()), ParseMembers(old(decoder.View()).rest, depth, {}).rest)
    decreases |decoder.View().rest|, 2
  {
    ghost var members: map<string, Node> := map[];
    ghost var done: seq<Member> := [];
    ghost var before := decoder.View();
    MembersBegin(before, depth);
    var seen: set<string>, count := {}, 0;
    while true
      invariant decoder.Valid() && MembersSoFar(before, decoder.View(), depth, members, done)
      invariant seen == members.Keys && count == |seen|
      decreases |decoder.View().rest|
    {
      var more := decoder.HasMore();
      if !more {
        break;
      }
      ghost var here := decoder.View();
      ghost var read: Syntax;
      var key;
      key, read := ValidateMember(decoder, depth, seen, count);
      if key.None? {
        return false;
      }
      MembersAdvance(before, here, decoder.View(), depth, members, done, Json.Member(key.value, read));
      members, done := members[key.value := ToNode(read)], done + [Json.Member(key.value, read)];
      seen, count := seen + {key.value}, count + 1;
    }
    MembersFinish(before, decoder.View(), depth, members, done);
    var end := decoder.Next();
    ok := end == Delim(RBrace);
  }

  /** After a whole value only the end of the text gives no token. */
  lemma TrailingToken(rest: seq<Lexeme>)
    ensures Advance(Standing(rest, TopValue, [])).0 == Eof <==> rest == []
  {
  }

  /** `validateRawJSON`: `size` is the length of the text in bytes. It accepts exactly what
      the tree parser accepts, up to the cap. */
  method ValidateRawJson(input: seq<Lexeme>, size: nat, maxBytes: nat) returns (ok: bool)
    requires size == 0 ==> input == []
    ensures ok <==> size <= maxBytes && ParseTree(input).Some?
  {
    if size == 0 {
      assert ParseValue([], 0).Fail?;
      return false;
    }
    if size > maxBytes {
      return false;
    }
    var decoder := new Decoder(input);
    var valid := ValidateValue(decoder, 0);
    if !valid {
      return false;
    }
    var end := decoder.Next();
    TrailingToken(ParseValue(input, 0).rest);
    ok := end == Eof;
  }
}
