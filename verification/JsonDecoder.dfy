/** The token decoder's state machine, the two recursive readers driven by it, and the
    printer. */
module JsonDecoder {
  import opened Journals
  import opened Json
  import opened CanonicalJson

  datatype TokenState = TopValue | ArrayStart | ArrayValue | ArrayComma | ObjectStart | ObjectKey | ObjectColon
    | ObjectValue | ObjectComma

  datatype Token = Eof | Bad | Delim(l: Lexeme) | Scalar(l: Lexeme)

  /** What is left to read, and where in which structures the decoder stands. */
  datatype Standing = Standing(rest: seq<Lexeme>, state: TokenState, stack: seq<TokenState>)

  predicate ValueAllowed(s: TokenState) { s == TopValue || s == ArrayStart || s == ArrayValue || s == ObjectValue }

  function ValueEnd(s: TokenState): TokenState {
    if s == ArrayStart || s == ArrayValue then ArrayComma else if s == ObjectValue then ObjectComma else s
  }

  function Closed(d: Standing): (Token, Standing)
    requires d.rest != []
  {
    if d.stack == [] then (Bad, d)
    else (Delim(d.rest[0]), Standing(d.rest[1..], ValueEnd(d.stack[|d.stack| - 1]), d.stack[..|d.stack| - 1]))
  }

  /** `Token`: commas and colons are consumed where they belong. */
  function Advance(d: Standing): (Token, Standing)
    decreases |d.rest|
  {
    if d.rest == [] then (Eof, d)
    else
      match d.rest[0]
      case LBracket =>
        if ValueAllowed(d.state) then (Delim(LBracket), Standing(d.rest[1..], ArrayStart, d.stack + [d.state]))
        else (Bad, d)
      case LBrace =>
        if ValueAllowed(d.state) then (Delim(LBrace), Standing(d.rest[1..], ObjectStart, d.stack + [d.state]))
        else (Bad, d)
      case RBracket => if d.state == ArrayStart || d.state == ArrayComma then Closed(d) else (Bad, d)
      case RBrace => if d.state == ObjectStart || d.state == ObjectComma then Closed(d) else (Bad, d)
      case Comma =>
        if d.state == ArrayComma then Advance(Standing(d.rest[1..], ArrayValue, d.stack))
        else if d.state == ObjectComma then Advance(Standing(d.rest[1..], ObjectKey, d.stack))
        else (Bad, d)
      case Colon => if d.state == ObjectColon then Advance(Standing(d.rest[1..], ObjectValue, d.stack)) else (Bad, d)
      case BadLex => (Bad, d)
      case StrLit(_) =>
        if d.state == ObjectStart || d.state == ObjectKey then
          (Scalar(d.rest[0]), Standing(d.rest[1..], ObjectColon, d.stack))
        else if ValueAllowed(d.state) then (Scalar(d.rest[0]), Standing(d.rest[1..], ValueEnd(d.state), d.stack))
        else (Bad, d)
      case _ => if ValueAllowed(d.state) then (Scalar(d.rest[0]), Standing(d.rest[1..], ValueEnd(d.state), d.stack))
          else (Bad, d)
  }

  class Decoder {
    const input: seq<Lexeme>
    var pos: nat
    var state: TokenState
    var stack: seq<TokenState>

    ghost predicate Valid()
      reads this
    {
      pos <= |input|
    }

    ghost function View(): Standing
      reads this
      requires Valid()
    {
      Standing(input[pos..], state, stack)
    }

    constructor (input: seq<Lexeme>)
      ensures Valid() && View() == Standing(input, TopValue, [])
    {
      this.input, pos, state, stack := input, 0, TopValue, [];
    }

    method HasMore() returns (more: bool)
      requires Valid()
      ensures more == More(View().rest)
    {
      more := pos < |input| && input[pos] != RBracket && input[pos] != RBrace;
    }

    /** `[` or `{`. */
    method OpenStructure() returns (token: Token)
      requires Valid() && pos < |input| && (input[pos] == LBracket || input[pos] == LBrace)
      modifies this`pos, this`state, this`stack
      ensures Valid() && token == Advance(old(View())).0
      ensures token.Delim? || token.Scalar? ==> View() == Advance(old(View())).1
      ensures token.Delim? || token.Bad?
    {
      if !ValueAllowed(state) { return Bad; }
      token := Delim(input[pos]);
      assert input[pos..][1..] == input[pos + 1..];
      pos, stack, state := pos + 1, stack + [state], if input[pos] == LBracket then ArrayStart else ObjectStart;
    }

    /** `]` or `}`. */
    method CloseStructure() returns (token: Token)
      requires Valid() && pos < |input| && (input[pos] == RBracket || input[pos] == RBrace)
      modifies this`pos, this`state, this`stack
      ensures Valid() && token == Advance(old(View())).0
      ensures token.Delim? || token.Scalar? ==> View() == Advance(old(View())).1
      ensures token.Delim? || token.Bad?
    {
      var closes := if input[pos] == RBracket then state == ArrayStart || state == ArrayComma
                    else state == ObjectStart || state == ObjectComma;
      if !closes || |stack| == 0 { return Bad; }
      token := Delim(input[pos]);
      assert input[pos..][1..] == input[pos + 1..];
      pos, state, stack := pos + 1, ValueEnd(stack[|stack| - 1]), stack[..|stack| - 1];
    }

    /** A comma or colon, skipped where it belongs. */
    method SkipSeparator() returns (ok: bool)
      requires Valid() && pos < |input| && (input[pos] == Comma || input[pos] == Colon)
      modifies this`pos, this`state
      ensures Valid() && (if ok then pos == old(pos) + 1 else pos == old(pos))
      ensures if ok then Advance(View()) == Advance(old(View())) else Advance(old(View())).0 == Bad
    {
      var next: TokenState;
      if input[pos] == Comma && state == ArrayComma {
        next := ArrayValue;
      } else if input[pos] == Comma && state == ObjectComma {
        next := ObjectKey;
      } else if input[pos] == Colon && state == ObjectColon {
        next := ObjectValue;
      } else {
        return false;
      }
      assert input[pos..][1..] == input[pos + 1..];
      pos, state, ok := pos + 1, next, true;
    }

    /** A name, a value, or a lexeme no value begins with. */
    method TakeScalar() returns (token: Token)
      requires Valid() && pos < |input|
      requires input[pos] !in {LBracket, LBrace, RBracket, RBrace, Comma, Colon}
      modifies this`pos, this`state
      ensures Valid() && token == Advance(old(View())).0
      ensures token.Delim? || token.Scalar? ==> View() == Advance(old(View())).1
      ensures token.Scalar? || token.Bad?
    {
      var l := input[pos];
      if l == BadLex { return Bad; }
      assert input[pos..][1..] == input[pos + 1..];
      if l.StrLit? && (state == ObjectStart || state == ObjectKey) {
        pos, state := pos + 1, ObjectColon;
        return Scalar(l);
      }
      if !ValueAllowed(state) { return Bad; }
      pos, state := pos + 1, ValueEnd(state);
      token := Scalar(l);
    }

    /** A failed token leaves the decoder anywhere: its callers give up. */
    method Next() returns (token: Token)
      requires Valid()
      modifies this`pos, this`state, this`stack
      ensures Valid() && token == Advance(old(View())).0
      ensures token.Delim? || token.Scalar? ==> View() == Advance(old(View())).1
      ensures token.Eof? ==> View() == Advance(old(View())).1
    {
      while true
        invariant Valid() && Advance(View()) == Advance(old(View()))
        decreases |input| - pos
      {
        if pos == |input| {
          return Eof;
        }
        match input[pos]
        case LBracket | LBrace =>
          token := OpenStructure();
          return;
        case RBracket | RBrace =>
          token := CloseStructure();
          return;
        case Comma | Colon =>
          var ok := SkipSeparator();
          if !ok { return Bad; }
        case _ =>
          token := TakeScalar();
          return;
      }
    }
  }

  // ---- reading one value ----

  predicate Expects(s: TokenState) { ValueAllowed(s) || s == ArrayComma || s == ObjectColon }

  function Entered(s: TokenState): TokenState {
    if s == ArrayComma then ArrayValue else if s == ObjectColon then ObjectValue else s
  }

  /** Where the next value begins, once its comma or colon is consumed. */
  function ValueStart(d: Standing): Option<seq<Lexeme>> {
    if ValueAllowed(d.state) then Some(d.rest)
    else if d.state == ArrayComma then SkipComma(d.rest, false)
    else if d.rest != [] && d.rest[0] == Colon then Some(d.rest[1..])
    else None
  }

  function Outcome(d: Standing, depth: nat): Parsed<Syntax> {
    match ValueStart(d)
    case None => Fail
    case Some(start) => ParseValue(start, depth)
  }

  function After(d: Standing, rest: seq<Lexeme>): Standing { Standing(rest, ValueEnd(Entered(d.state)), d.stack) }

  predicate Opens(token: Token) { token.Scalar? || token == Delim(LBracket) || token == Delim(LBrace) }

  /** The token a value begins with. */
  lemma ValueToken(d: Standing)
    requires Expects(d.state)
    ensures ValueStart(d).None? ==> !Opens(Advance(d).0)
    ensures ValueStart(d).Some? ==>
      Advance(d) == Advance(Standing(ValueStart(d).value, Entered(d.state), d.stack))
        && |ValueStart(d).value| <= |d.rest|
  {
  }

  /** A value's first token, in a state that allows one. */
  lemma FirstToken(start: seq<Lexeme>, state: TokenState, stack: seq<TokenState>, depth: nat)
    requires ValueAllowed(state)
    ensures var (token, after) := Advance(Standing(start, state, stack));
      && (token.Scalar? ==> start != [] && token.l == start[0] && after == Standing(start[1..], ValueEnd(state), stack))
      && (token == Delim(LBracket) ==>
        start != [] && start[0] == LBracket && after == Standing(start[1..], ArrayStart, stack + [state]))
      && (token == Delim(LBrace) ==>
        start != [] && start[0] == LBrace && after == Standing(start[1..], ObjectStart, stack + [state]))
  {
  }

  lemma NoValue(start: seq<Lexeme>, state: TokenState, stack: seq<TokenState>, depth: nat)
    requires ValueAllowed(state) && !Opens(Advance(Standing(start, state, stack)).0)
    ensures ParseValue(start, depth).Fail?
  {
  }

  /** A bracketed value is what lies between its brackets, and leaves the decoder where its
      structure stood. */
  lemma Nested(start: seq<Lexeme>, state: TokenState, stack: seq<TokenState>, depth: nat)
    requires start != [] && (start[0] == LBracket || start[0] == LBrace)
    ensures depth >= MAX_DEPTH ==> ParseValue(start, depth).Fail?
    ensures depth < MAX_DEPTH && start[0] == LBracket ==>
      var r := ParseItems(start[1..], depth + 1, 0);
      ParseValue(start, depth) == if r.Fail? then Fail else Good(SArr(r.value), r.rest)
    ensures depth < MAX_DEPTH && start[0] == LBrace ==>
      var r := ParseMembers(start[1..], depth + 1, {});
      ParseValue(start, depth) == if r.Fail? then Fail else Good(SObj(r.value), r.rest)
    ensures (stack + [state])[|stack|] == state && (stack + [state])[..|stack|] == stack
  {
  }

  /** The node a scalar lexeme stands for. */
  function ScalarNode(l: Lexeme): Option<Node> {
    match l
    case NullLit => Some(Null)
    case BoolLit(b) => Some(Bool(b))
    case StrLit(t) => if |t| > MAX_STRING then None else Some(Str(t))
    case NumLit(t) => if IntegerText(t) then Some(Num(t)) else None
    case _ => None
  }

  method ReadScalar(l: Lexeme) returns (node: Option<Node>)
    ensures node == ScalarNode(l)
  {
    match l
    case NullLit => return Some(Null);
    case BoolLit(b) => return Some(Bool(b));
    case StrLit(t) => return if |t| > MAX_STRING then None else Some(Str(t));
    case NumLit(t) =>
      var ok := ValidInteger(t);
      return if ok then Some(Num(t)) else None;
    case _ => return None;
  }

  lemma ScalarValue(start: seq<Lexeme>, depth: nat)
    requires start != [] && start[0] != LBracket && start[0] != LBrace
    ensures ScalarNode(start[0]).None? <==> ParseValue(start, depth).Fail?
    ensures ParseValue(start, depth).Good? ==>
      Some(ToNode(ParseValue(start, depth).value)) == ScalarNode(start[0])
        && ParseValue(start, depth).rest == start[1..]
  {
  }

  lemma ScalarToken(start: seq<Lexeme>, state: TokenState, stack: seq<TokenState>)
    requires ValueAllowed(state) && Advance(Standing(start, state, stack)).0.Scalar?
    ensures start != [] && start[0] != LBracket && start[0] != LBrace
  {
  }

  function Prepend<T>(xs: seq<T>, r: Parsed<seq<T>>): Parsed<seq<T>> {
    match r
    case Fail => Fail
    case Good(more, rest) => Good(xs + more, rest)
  }

  lemma PrependOne<T>(xs: seq<T>, x: T, r: Parsed<seq<T>>)
    ensures Prepend(xs, Cons(x, r)) == Prepend(xs + [x], r)
  {
    if r.Good? { assert xs + ([x] + r.value) == xs + [x] + r.value; }
  }

  lemma PrependNone<T>(r: Parsed<seq<T>>)
    ensures Prepend([], r) == r
  {
    if r.Good? { assert [] + r.value == r.value; }
  }

  // ---- arrays ----

  /** Inside an array after `count` items. */
  predicate InArray(d: Standing, count: nat) {
    d.stack != [] && d.state == if count == 0 then ArrayStart else ArrayComma
  }

  lemma ArrayEnds(d: Standing, depth: nat, count: nat)
    requires InArray(d, count) && !More(d.rest)
    ensures Advance(d).0 == Delim(RBracket) <==> ParseItems(d.rest, depth, count).Good?
    ensures Advance(d).0 == Delim(RBracket) ==>
      ParseItems(d.rest, depth, count) == Good([], d.rest[1..])
      && Advance(d).1 == Standing(d.rest[1..], ValueEnd(d.stack[|d.stack| - 1]), d.stack[..|d.stack| - 1])
  {
  }

  lemma NodesSnoc(items: seq<Syntax>, item: Syntax)
    ensures ToNodes(items + [item]) == ToNodes(items) + [ToNode(item)]
  {
    NodesAt(items);
    NodesAt(items + [item]);
  }

  /** What follows the closing bracket. */
  function Popped(d: Standing, rest: seq<Lexeme>): Standing
    requires d.stack != []
  {
    Standing(rest, ValueEnd(d.stack[|d.stack| - 1]), d.stack[..|d.stack| - 1])
  }

  /** The item loop has read `done` and stands in `here`. */
  ghost predicate ItemsSoFar(before: Standing, here: Standing, depth: nat, items: seq<Node>, done: seq<Syntax>) {
    && InArray(here, |done|) && here.stack == before.stack && |here.rest| <= |before.rest|
    && items == ToNodes(done) && |items| == |done| <= MAX_MEMBERS
    && ParseItems(before.rest, depth, 0) == Prepend(done, ParseItems(here.rest, depth, |done|))
  }

  lemma ItemsBegin(before: Standing, depth: nat)
    requires InArray(before, 0)
    ensures ItemsSoFar(before, before, depth, [], [])
  {
    PrependNone(ParseItems(before.rest, depth, 0));
  }

  lemma ItemsAdvance(before: Standing, here: Standing, depth: nat, items: seq<Node>, done: seq<Syntax>)
    requires ItemsSoFar(before, here, depth, items, done) && More(here.rest)
    ensures Outcome(here, depth).Fail? || |items| == MAX_MEMBERS ==> ParseItems(before.rest, depth, 0).Fail?
    ensures var r := Outcome(here, depth);
      r.Good? && |items| < MAX_MEMBERS && |r.rest| < |here.rest| ==>
        ItemsSoFar(before, After(here, r.rest), depth, items + [ToNode(r.value)], done + [r.value])
  {
    var r := Outcome(here, depth);
    if r.Good? {
      PrependOne(done, r.value, ParseItems(r.rest, depth, |done| + 1));
      NodesSnoc(done, r.value);
    }
  }

  lemma ItemsFinish(before: Standing, here: Standing, depth: nat, items: seq<Node>, done: seq<Syntax>)
    requires ItemsSoFar(before, here, depth, items, done) && !More(here.rest)
    ensures Advance(here).0 == Delim(RBracket) <==> ParseItems(before.rest, depth, 0).Good?
    ensures Advance(here).0 == Delim(RBracket) ==>
      var r := ParseItems(before.rest, depth, 0);
      items == ToNodes(r.value) && Advance(here).1 == Popped(before, r.rest)
  {
    ArrayEnds(here, depth, |done|);
    assert done + [] == done;
  }

  method ReadArray(decoder: Decoder, depth: nat) returns (node: Option<Node>)
    requires decoder.Valid() && InArray(decoder.View(), 0)
    modifies decoder
    ensures decoder.Valid() && (node.None? <==> ParseItems(old(decoder.View()).rest, depth, 0).Fail?)
    ensures node.Some? ==>
      var r := ParseItems(old(decoder.View()).rest, depth, 0);
      node.value == Arr(ToNodes(r.value)) && decoder.View() == Popped(old(decoder.View()), r.rest)
    decreases |decoder.View().rest|, 1
  {
    var items: seq<Node> := [];
    ghost var done: seq<Syntax> := [];
    ghost var before := decoder.View();
    ItemsBegin(before, depth);
    while true
      invariant decoder.Valid() && ItemsSoFar(before, decoder.View(), depth, items, done)
      decreases |decoder.View().rest|
    {
      var more := decoder.HasMore();
      if !more {
        break;
      }
      ghost var here := decoder.View();
      ItemsAdvance(before, here, depth, items, done);
      if |items| == MAX_MEMBERS {
        return None;
      }
      var item := ReadValue(decoder, depth);
      if item.None? {
        return None;
      }
      items, done := items + [item.value], done + [Outcome(here, depth).value];
    }
    ItemsFinish(before, decoder.View(), depth, items, done);
    var end := decoder.Next();
    node := if end != Delim(RBracket) then None else Some(Arr(items));
  }

  method ReadValue(decoder: Decoder, depth: nat) returns (node: Option<Node>)
    requires decoder.Valid() && Expects(decoder.state)
    modifies decoder
    ensures decoder.Valid() && (node.None? <==> Outcome(old(decoder.View()), depth).Fail?)
    ensures node.Some? ==>
      var r := Outcome(old(decoder.View()), depth);
      node.value == ToNode(r.value) && decoder.View() == After(old(decoder.View()), r.rest)
        && |r.rest| < |old(decoder.View()).rest|
    decreases |decoder.View().rest|, 0
  {
    ghost var before := decoder.View();
    ghost var state := Entered(before.state);
    ValueToken(before);
    var token := decoder.Next();
    if !token.Scalar? && token != Delim(LBracket) && token != Delim(LBrace) {
      if ValueStart(before).Some? { NoValue(ValueStart(before).value, state, before.stack, depth); }
      return None;
    }
    ghost var start := ValueStart(before).value;
    FirstToken(start, state, before.stack, depth);
    if token.Scalar? {
      ScalarToken(start, state, before.stack);
      ScalarValue(start, depth);
      node := ReadScalar(token.l);
    } else {
      node := ReadNested(decoder, token.l, depth, start, state, before.stack);
    }
  }

  method ReadNested(decoder: Decoder, open: Lexeme, depth: nat, ghost start: seq<Lexeme>, ghost state: TokenState,
          ghost stack: seq<TokenState>) returns (node: Option<Node>)
    requires decoder.Valid() && start != [] && start[0] == open && (open == LBracket || open == LBrace)
    requires decoder.View() ==
        Standing(start[1..], if open == LBracket then ArrayStart else ObjectStart, stack + [state])
    modifies decoder
    ensures decoder.Valid() && (node.None? <==> ParseValue(start, depth).Fail?)
    ensures node.Some? ==>
      var r := ParseValue(start, depth);
      node.value == ToNode(r.value) && decoder.View() == Standing(r.rest, ValueEnd(state), stack)
    decreases |decoder.View().rest|, 3
  {
    Nested(start, state, stack, depth);
    if depth >= MAX_DEPTH {
      return None;
    }
    if open == LBracket {
      node := ReadArray(decoder, depth + 1);
    } else {
      node := ReadObject(decoder, depth + 1);
    }
  }

  // ---- objects ----

  predicate InObject(d: Standing, seen: set<string>) {
    d.stack != [] && d.state == if seen == {} then ObjectStart else ObjectComma
  }

  /** The key of the next member, if one can be read. */
  function KeyOutcome(d: Standing, seen: set<string>): Parsed<string> {
    match SkipComma(d.rest, seen == {})
    case None => Fail
    case Some(start) => if start != [] && start[0].StrLit? then Good(start[0].s, start[1..]) else Fail
  }

  lemma KeyToken(d: Standing, seen: set<string>)
    requires InObject(d, seen) && More(d.rest)
    ensures KeyOutcome(d, seen).Good? <==> Advance(d).0.Scalar? && Advance(d).0.l.StrLit?
    ensures KeyOutcome(d, seen).Good? ==>
      var k := KeyOutcome(d, seen);
      Advance(d) == (Scalar(StrLit(k.value)), Standing(k.rest, ObjectColon, d.stack)) && |k.rest| < |d.rest|
  {
  }

  /** The member loop once its key `k` was read and stands in `e`. */
  lemma ObjectGoesOn(d: Standing, e: Standing, depth: nat, seen: set<string>)
    requires InObject(d, seen) && More(d.rest)
    requires KeyOutcome(d, seen).Good? ==> e == Standing(KeyOutcome(d, seen).rest, ObjectColon, d.stack)
    ensures KeyOutcome(d, seen).Fail? || |seen| >= MAX_MEMBERS ==> ParseMembers(d.rest, depth, seen).Fail?
    ensures KeyOutcome(d, seen).Good? ==>
      var k := KeyOutcome(d, seen).value;
      && (|k| > MAX_STRING || k in seen || Outcome(e, depth).Fail? ==> ParseMembers(d.rest, depth, seen).Fail?)
      && (|k| <= MAX_STRING && k !in seen && Outcome(e, depth).Good? && |seen| < MAX_MEMBERS ==>
        var r := Outcome(e, depth);
        && ParseMembers(d.rest, depth, seen) == Cons(Json.Member(k, r.value), ParseMembers(r.rest, depth, seen + {k}))
        && InObject(After(e, r.rest), seen + {k}))
  {
    if KeyOutcome(d, seen).Good? && |seen| < MAX_MEMBERS {
      var start := SkipComma(d.rest, seen == {}).value;
      assert ValueStart(e).Some? ==>
        ParseKey(start) == Good(start[0].s, start[2..]) && start[2..] == ValueStart(e).value by {
        if ValueStart(e).Some? { assert start[1..][0] == start[1] && start[1..][1..] == start[2..]; }
      }
      if ValueStart(e).None? {
        assert ParseKey(start).Fail? by { if |start| >= 2 { assert start[1..][0] == start[1]; } }
      }
    }
  }

  lemma ObjectEnds(d: Standing, depth: nat, seen: set<string>)
    requires InObject(d, seen) && !More(d.rest)
    ensures Advance(d).0 == Delim(RBrace) <==> ParseMembers(d.rest, depth, seen).Good?
    ensures Advance(d).0 == Delim(RBrace) ==>
      ParseMembers(d.rest, depth, seen) == Good([], d.rest[1..]) && Advance(d).1 == Popped(d, d.rest[1..])
  {
  }

  lemma {:induction false} MapSnoc(members: seq<Member>, m: Member)
    requires forall k :: 0 <= k < |members| ==> members[k].key != m.key
    ensures ToMap(members + [m]) == ToMap(members)[m.key := ToNode(m.value)]
  {
    if members == [] {
      assert members + [m] == [m] && [m][1..] == [];
    } else {
      assert (members + [m])[0] == members[0] && (members + [m])[1..] == members[1..] + [m];
      forall k | 0 <= k < |members[1..]|
        ensures members[1..][k].key != m.key
      {
        assert members[1..][k] == members[k + 1];
      }
      MapSnoc(members[1..], m);
    }
  }

  /** One member of an object, up to the end of its value. */
  method ReadMember(decoder: Decoder, depth: nat, members: map<string, Node>,
          ghost seen: set<string>) returns (member: Option<(string, Node)>, ghost read: Syntax)
    requires decoder.Valid() && InObject(decoder.View(), seen) && More(decoder.View().rest) && seen == members.Keys
    requires |seen| <= MAX_MEMBERS
    modifies decoder
    ensures decoder.Valid()
    ensures member.None? ==> ParseMembers(old(decoder.View()).rest, depth, seen).Fail?
    ensures member.Some? ==>
      && |seen| < MAX_MEMBERS && member.value.0 !in seen && member.value.1 == ToNode(read)
      && InObject(decoder.View(), seen + {member.value.0}) && decoder.stack == old(decoder.stack)
      && |decoder.View().rest| < |old(decoder.View()).rest|
      && ParseMembers(old(decoder.View()).rest, depth, seen)
        == Cons(Json.Member(member.value.0, read), ParseMembers(decoder.View().rest, depth, seen + {member.value.0}))
    decreases |decoder.View().rest|, 1
  {
    ghost var here := decoder.View();
    read := SNull;
    KeyToken(here, seen);
    ObjectGoesOn(here, Advance(here).1, depth, seen);
    assert |seen| == |members|;
    if |members| == MAX_MEMBERS {
      return None, read;
    }
    var token := decoder.Next();
    if !token.Scalar? || !token.l.StrLit? {
      return None, read;
    }
    var key := token.l.s;
    if |key| > MAX_STRING || key in members {
      return None, read;
    }
    ghost var there := decoder.View();
    var value := ReadValue(decoder, depth);
    if value.None? {
      return None, read;
    }
    read := Outcome(there, depth).value;
    member := Some((key, value.value));
  }

  /** The member loop has read `done` and stands in `here`. */
  ghost predicate MembersSoFar(before: Standing, here: Standing, depth: nat, members: map<string, Node>,
          done: seq<Member>)
  {
    && InObject(here, members.Keys) && here.stack == before.stack && |here.rest| <= |before.rest|
    && members == ToMap(done) && |members.Keys| <= MAX_MEMBERS
    && (forall k :: 0 <= k < |done| ==> done[k].key in members)
    && ParseMembers(before.rest, depth, {}) == Prepend(done, ParseMembers(here.rest, depth, members.Keys))
  }

  lemma MembersBegin(before: Standing, depth: nat)
    requires InObject(before, {})
    ensures MembersSoFar(before, before, depth, map[], [])
  {
    PrependNone(ParseMembers(before.rest, depth, {}));
    var none: map<string, Node> := map[];
    assert none.Keys == {};
  }

  lemma MembersAdvance(before: Standing, here: Standing, next: Standing, depth: nat, members: map<string, Node>,
          done: seq<Member>, m: Member)
    requires MembersSoFar(before, here, depth, members, done) && |members.Keys| < MAX_MEMBERS && m.key !in members
    requires InObject(next, members.Keys + {m.key}) && next.stack == here.stack && |next.rest| < |here.rest|
    requires ParseMembers(here.rest, depth, members.Keys) ==
        Cons(m, ParseMembers(next.rest, depth, members.Keys + {m.key}))
    ensures MembersSoFar(before, next, depth, members[m.key := ToNode(m.value)], done + [m])
  {
    var after := members[m.key := ToNode(m.value)];
    assert after.Keys == members.Keys + {m.key};
    PrependOne(done, m, ParseMembers(next.rest, depth, after.Keys));
    MapSnoc(done, m);
  }

  lemma MembersFinish(before: Standing, here: Standing, depth: nat, members: map<string, Node>, done: seq<Member>)
    requires MembersSoFar(before, here, depth, members, done) && !More(here.rest)
    ensures Advance(here).0 == Delim(RBrace) <==> ParseMembers(before.rest, depth, {}).Good?
    ensures Advance(here).0 == Delim(RBrace) ==>
      var r := ParseMembers(before.rest, depth, {});
      members == ToMap(r.value) && Advance(here).1 == Popped(before, r.rest)
  {
    ObjectEnds(here, depth, members.Keys);
    assert done + [] == done;
  }

  method ReadObject(decoder: Decoder, depth: nat) returns (node: Option<Node>)
    requires decoder.Valid() && InObject(decoder.View(), {})
    modifies decoder
    ensures decoder.Valid() && (node.None? <==> ParseMembers(old(decoder.View()).rest, depth, {}).Fail?)
    ensures node.Some? ==>
      var r := ParseMembers(old(decoder.View()).rest, depth, {});
      node.value == Obj(ToMap(r.value)) && decoder.View() == Popped(old(decoder.View()), r.rest)
    decreases |decoder.View().rest|, 2
  {
    var members: map<string, Node> := map[];
    ghost var done: seq<Member> := [];
    ghost var before := decoder.View();
    MembersBegin(before, depth);
    while true
      invariant decoder.Valid() && MembersSoFar(before, decoder.View(), depth, members, done)
      decreases |decoder.View().rest|
    {
      var more := decoder.HasMore();
      if !more {
        break;
      }
      ghost var here := decoder.View();
      ghost var read: Syntax;
      var member;
      member, read := ReadMember(decoder, depth, members, members.Keys);
      if member.None? {
        return None;
      }
      var (key, value) := member.value;
      MembersAdvance(before, here, decoder.View(), depth, members, done, Json.Member(key, read));
      members, done := members[key := value], done + [Json.Member(key, read)];
    }
    MembersFinish(before, decoder.View(), depth, members, done);
    var end := decoder.Next();
    node := if end != Delim(RBrace) then None else Some(Obj(members));
  }
}
