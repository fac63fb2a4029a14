/** JSON texts as lexemes: a grammar, and the recursive-descent reading of it. */
module Json {
  import opened Journals

  const MAX_DEPTH := 64
  const MAX_STRING := 0x10_0000
  const MAX_MEMBERS := 4096

  /** String lexemes carry the unquoted text; `BadLex` is anything the lexer rejects. */
  datatype Lexeme = LBracket | RBracket | LBrace | RBrace | Comma | Colon | NullLit | BoolLit(b: bool)
    | StrLit(s: string) | NumLit(n: string) | BadLex

  datatype Member = Member(key: string, value: Syntax)

  /** A text's structure, with members in written order. */
  datatype Syntax = SNull | SBool(b: bool) | SStr(s: string) | SNum(n: string) | SArr(items: seq<Syntax>)
    | SObj(members: seq<Member>)

  predicate IsDigit(c: char) { '0' <= c <= '9' }

  predicate AllDigits(s: string) { forall k :: 0 <= k < |s| ==> IsDigit(s[k]) }

  /** An integer without fraction, exponent, plus sign or leading zeros. */
  predicate IntegerText(s: string) {
    var digits := if s != [] && s[0] == '-' then s[1..] else s;
    digits != [] && AllDigits(digits) && (digits[0] == '0' ==> |digits| == 1)
  }

  method ValidInteger(value: string) returns (ok: bool)
    ensures ok <==> IntegerText(value)
  {
    if value == "" { return false; }
    var start := 0;
    if value[0] == '-' {
      if |value| == 1 { return false; }
      start := 1;
    }
    ghost var digits := if start == 1 then value[1..] else value;
    assert digits[0] == value[start];
    if value[start] == '0' {
      return |value| == start + 1;
    }
    if value[start] < '1' || value[start] > '9' { return false; }
    for index := start + 1 to |value|
      invariant forall k :: start <= k < index ==> IsDigit(value[k])
    {
      if value[index] < '0' || value[index] > '9' {
        assert digits[index - start] == value[index];
        return false;
      }
    }
    ok := true;
  }

  // ---- the grammar ----

  function Unparse(s: Syntax): seq<Lexeme>
    decreases s, 1
  {
    match s
    case SNull => [NullLit]
    case SBool(b) => [BoolLit(b)]
    case SStr(t) => [StrLit(t)]
    case SNum(t) => [NumLit(t)]
    case SArr(items) => [LBracket] + UnparseItems(items, true) + [RBracket]
    case SObj(members) => [LBrace] + UnparseMembers(members, true) + [RBrace]
  }

  function Separator(first: bool): seq<Lexeme> { if first then [] else [Comma] }

  function UnparseItems(items: seq<Syntax>, first: bool): seq<Lexeme>
    decreases items, 0
  {
    if items == [] then [] else Separator(first) + Unparse(items[0]) + UnparseItems(items[1..], false)
  }

  function UnparseMembers(members: seq<Member>, first: bool): seq<Lexeme>
    decreases members, 0
  {
    if members == [] then []
    else
      Separator(first) + [StrLit(members[0].key), Colon] + Unparse(members[0].value)
      + UnparseMembers(members[1..], false)
  }

  predicate DistinctKeys(members: seq<Member>) {
    forall i, j :: 0 <= i < j < |members| ==> members[i].key != members[j].key
  }

  /** Within the limits of a text starting at `depth`: 64 levels, 4096 elements or members,
      a mebibyte a string. */
  predicate Allowed(s: Syntax, depth: nat)
    decreases s
  {
    match s
    case SStr(t) => |t| <= 1024 * 1024
    case SNum(t) => IntegerText(t)
    case SArr(items) =>
      depth < 64 && |items| <= 4096 && forall k :: 0 <= k < |items| ==> Allowed(items[k], depth + 1)
    case SObj(members) =>
      && depth < 64 && |members| <= 4096 && DistinctKeys(members)
      && forall k :: 0 <= k < |members| ==> |members[k].key| <= 1024 * 1024 && Allowed(members[k].value, depth + 1)
    case _ => true
  }

  // ---- reading ----

  datatype Parsed<T> = Fail | Good(value: T, rest: seq<Lexeme>)

  function ParseValue(input: seq<Lexeme>, depth: nat): (r: Parsed<Syntax>)
    ensures r.Good? ==> |r.rest| < |input|
    decreases |input|, 0
  {
    if input == [] then Fail
    else
      match input[0]
      case NullLit => Good(SNull, input[1..])
      case BoolLit(b) => Good(SBool(b), input[1..])
      case StrLit(t) => if |t| > MAX_STRING then Fail else Good(SStr(t), input[1..])
      case NumLit(t) => if IntegerText(t) then Good(SNum(t), input[1..]) else Fail
      case LBracket =>
        if depth >= MAX_DEPTH then Fail
        else
          (match ParseItems(input[1..], depth + 1, 0)
           case Fail => Fail
           case Good(items, rest) => Good(SArr(items), rest))
      case LBrace =>
        if depth >= MAX_DEPTH then Fail
        else
          (match ParseMembers(input[1..], depth + 1, {})
           case Fail => Fail
           case Good(members, rest) => Good(SObj(members), rest))
      case _ => Fail
  }

  /** Whether the decoder sees more elements before a closing bracket. */
  predicate More(input: seq<Lexeme>) { input != [] && input[0] != RBracket && input[0] != RBrace }

  /** Skips the comma before any element but the first. */
  function SkipComma(input: seq<Lexeme>, first: bool): Option<seq<Lexeme>> {
    if first then Some(input) else if input != [] && input[0] == Comma then Some(input[1..]) else None
  }

  /** The items after the first `count`, up to and including the closing bracket. */
  function ParseItems(input: seq<Lexeme>, depth: nat, count: nat): (r: Parsed<seq<Syntax>>)
    ensures r.Good? ==> |r.rest| < |input|
    decreases |input|, 1
  {
    if !More(input) then
      if input != [] && input[0] == RBracket then Good([], input[1..]) else Fail
    else if count >= MAX_MEMBERS || SkipComma(input, count == 0).None? then Fail
    else
      match ParseValue(SkipComma(input, count == 0).value, depth)
      case Fail => Fail
      case Good(item, next) =>
        match ParseItems(next, depth, count + 1)
        case Fail => Fail
        case Good(items, rest) => Good([item] + items, rest)
  }

  /** The key at the front and what follows its colon. */
  function ParseKey(input: seq<Lexeme>): Parsed<string> {
    if |input| >= 2 && input[0].StrLit? && input[1] == Colon then Good(input[0].s, input[2..]) else Fail
  }

  /** The members after those whose keys were `seen`, up to and including the brace. */
  function ParseMembers(input: seq<Lexeme>, depth: nat, seen: set<string>): (r: Parsed<seq<Member>>)
    ensures r.Good? ==> |r.rest| < |input|
    decreases |input|, 1
  {
    if !More(input) then
      if input != [] && input[0] == RBrace then Good([], input[1..]) else Fail
    else if |seen| >= MAX_MEMBERS || SkipComma(input, seen == {}).None? then Fail
    else
      match ParseKey(SkipComma(input, seen == {}).value)
      case Fail => Fail
      case Good(key, next) =>
        if |key| > MAX_STRING || key in seen then Fail
        else
          match ParseValue(next, depth)
          case Fail => Fail
          case Good(value, after) =>
            match ParseMembers(after, depth, seen + {key})
            case Fail => Fail
            case Good(members, rest) => Good([Member(key, value)] + members, rest)
  }

  /** A whole text: one value and nothing after it. */
  function ParseText(input: seq<Lexeme>): Option<Syntax> {
    match ParseValue(input, 0)
    case Fail => None
    case Good(s, rest) => if rest == [] then Some(s) else None
  }

  // ---- reading is the grammar ----

  /** The reader recovers any allowed text's structure, whatever follows it. */
  lemma {:induction false} Complete(s: Syntax, depth: nat, rest: seq<Lexeme>)
    requires Allowed(s, depth)
    ensures ParseValue(Unparse(s) + rest, depth) == Good(s, rest)
    decreases s, 1
  {
    var input := Unparse(s) + rest;
    match s
    case SArr(items) =>
      assert input[1..] == UnparseItems(items, true) + [RBracket] + rest;
      CompleteItems(items, depth + 1, 0, rest);
    case SObj(members) =>
      assert input[1..] == UnparseMembers(members, true) + [RBrace] + rest;
      CompleteMembers(members, depth + 1, {}, rest);
    case _ =>
      assert input[1..] == rest;
  }

  predicate ItemsAllowed(items: seq<Syntax>, depth: nat) { forall k :: 0 <= k < |items| ==> Allowed(items[k], depth) }

  /** Members that may follow those whose keys were `seen`. */
  predicate MembersAllowed(members: seq<Member>, depth: nat, seen: set<string>) {
    && DistinctKeys(members)
    && forall k :: 0 <= k < |members| ==>
      |members[k].key| <= MAX_STRING && Allowed(members[k].value, depth) && members[k].key !in seen
  }

  lemma ItemsApart(items: seq<Syntax>, depth: nat)
    requires items != [] && ItemsAllowed(items, depth)
    ensures Allowed(items[0], depth) && ItemsAllowed(items[1..], depth) && [items[0]] + items[1..] == items
  {
  }

  lemma MembersApart(members: seq<Member>, depth: nat, seen: set<string>)
    requires members != [] && MembersAllowed(members, depth, seen)
    ensures var m := members[0];
      && |m.key| <= MAX_STRING && Allowed(m.value, depth) && m.key !in seen
      && MembersAllowed(members[1..], depth, seen + {m.key}) && [m] + members[1..] == members
  {
  }

  lemma Reassociated(a: seq<Lexeme>, b: seq<Lexeme>, c: seq<Lexeme>, d: seq<Lexeme>, e: seq<Lexeme>)
    ensures a + b + c + d + e == a + (b + (c + d + e))
  {
  }

  lemma {:induction false} ItemsText(items: seq<Syntax>, first: bool, rest: seq<Lexeme>)
    requires items != []
    ensures UnparseItems(items, first) + [RBracket] + rest
      == Separator(first) + (Unparse(items[0]) + (UnparseItems(items[1..], false) + [RBracket] + rest))
  {
    Reassociated(Separator(first), Unparse(items[0]), UnparseItems(items[1..], false), [RBracket], rest);
  }

  lemma MembersText(members: seq<Member>, first: bool, rest: seq<Lexeme>)
    requires members != []
    ensures UnparseMembers(members, first) + [RBrace] + rest
      == Separator(first) + ([StrLit(members[0].key), Colon] + (Unparse(members[0].value) +
          (UnparseMembers(members[1..], false) + [RBrace] + rest)))
  {
  }

  /** The separator before an element is what the reader skips. */
  lemma Skips(first: bool, body: seq<Lexeme>)
    requires body != [] && body[0] != Comma && More(body)
    ensures More(Separator(first) + body) && SkipComma(Separator(first) + body, first) == Some(body)
  {
    if first {
      assert Separator(first) + body == body;
    } else {
      assert ([Comma] + body)[1..] == body;
    }
  }

  function Cons<T>(x: T, r: Parsed<seq<T>>): Parsed<seq<T>> {
    match r
    case Fail => Fail
    case Good(xs, rest) => Good([x] + xs, rest)
  }

  lemma ItemsStep(input: seq<Lexeme>, depth: nat, count: nat, start: seq<Lexeme>)
    requires More(input) && count < MAX_MEMBERS && SkipComma(input, count == 0) == Some(start)
    requires ParseValue(start, depth).Good?
    ensures var item := ParseValue(start, depth);
      ParseItems(input, depth, count) == Cons(item.value, ParseItems(item.rest, depth, count + 1))
  {
  }

  lemma MembersStep(input: seq<Lexeme>, depth: nat, seen: set<string>, start: seq<Lexeme>)
    requires More(input) && |seen| < MAX_MEMBERS && SkipComma(input, seen == {}) == Some(start) && ParseKey(start).Good?
    requires var key := ParseKey(start);
      |key.value| <= MAX_STRING && key.value !in seen && ParseValue(key.rest, depth).Good?
    ensures var key := ParseKey(start); var value := ParseValue(key.rest, depth);
      ParseMembers(input, depth, seen) ==
          Cons(Member(key.value, value.value), ParseMembers(value.rest, depth, seen + {key.value}))
  {
  }

  lemma ReadItem(input: seq<Lexeme>, depth: nat, count: nat, item: Syntax, tail: seq<Lexeme>)
    requires input == Separator(count == 0) + (Unparse(item) + tail) && count < MAX_MEMBERS
    requires ParseValue(Unparse(item) + tail, depth) == Good(item, tail)
    ensures ParseItems(input, depth, count) == Cons(item, ParseItems(tail, depth, count + 1))
  {
    Skips(count == 0, Unparse(item) + tail);
    ItemsStep(input, depth, count, Unparse(item) + tail);
  }

  lemma ReadMember(input: seq<Lexeme>, depth: nat, seen: set<string>, m: Member, tail: seq<Lexeme>)
    requires input == Separator(seen == {}) + ([StrLit(m.key), Colon] + (Unparse(m.value) + tail))
    requires |seen| < MAX_MEMBERS
    requires |m.key| <= MAX_STRING && m.key !in seen
    requires ParseValue(Unparse(m.value) + tail, depth) == Good(m.value, tail)
    ensures ParseMembers(input, depth, seen) == Cons(m, ParseMembers(tail, depth, seen + {m.key}))
  {
    var body := [StrLit(m.key), Colon] + (Unparse(m.value) + tail);
    assert body[2..] == Unparse(m.value) + tail;
    Skips(seen == {}, body);
    MembersStep(input, depth, seen, body);
  }

  lemma {:induction false} CompleteItems(items: seq<Syntax>, depth: nat, count: nat, rest: seq<Lexeme>)
    requires count + |items| <= MAX_MEMBERS && ItemsAllowed(items, depth)
    ensures ParseItems(UnparseItems(items, count == 0) + [RBracket] + rest, depth, count) == Good(items, rest)
    decreases items, 0
  {
    var input := UnparseItems(items, count == 0) + [RBracket] + rest;
    if items == [] {
      assert input[1..] == rest;
    } else {
      var item, others := items[0], items[1..];
      var tail := UnparseItems(others, false) + [RBracket] + rest;
      ItemsApart(items, depth);
      CompleteItems(others, depth, count + 1, rest);
      Complete(item, depth, tail);
      ItemsText(items, count == 0, rest);
      ReadItem(input, depth, count, item, tail);
    }
  }

  lemma {:induction false} CompleteMembers(members: seq<Member>, depth: nat, seen: set<string>, rest: seq<Lexeme>)
    requires |seen| + |members| <= MAX_MEMBERS && MembersAllowed(members, depth, seen)
    ensures ParseMembers(UnparseMembers(members, seen == {}) + [RBrace] + rest, depth, seen) == Good(members, rest)
    decreases members, 0
  {
    var input := UnparseMembers(members, seen == {}) + [RBrace] + rest;
    if members == [] {
      assert input[1..] == rest;
    } else {
      var m, others := members[0], members[1..];
      var tail := UnparseMembers(others, false) + [RBrace] + rest;
      MembersApart(members, depth, seen);
      CompleteMembers(others, depth, seen + {m.key}, rest);
      Complete(m.value, depth, tail);
      MembersText(members, seen == {}, rest);
      ReadMember(input, depth, seen, m, tail);
    }
  }

  /** Whatever the reader accepts is the text of an allowed structure. */
  lemma {:induction false} Sound(input: seq<Lexeme>, depth: nat)
    requires ParseValue(input, depth).Good?
    ensures var r := ParseValue(input, depth); input == Unparse(r.value) + r.rest && Allowed(r.value, depth)
    decreases |input|, 0
  {
    assert input == [input[0]] + input[1..];
    match input[0]
    case LBracket => SoundItems(input[1..], depth + 1, 0);
    case LBrace => SoundMembers(input[1..], depth + 1, {});
    case _ =>
  }

  lemma SkipIsSeparator(input: seq<Lexeme>, first: bool)
    requires SkipComma(input, first).Some?
    ensures input == Separator(first) + SkipComma(input, first).value
  {
  }

  /** Where an accepted array goes on. */
  lemma ItemsGoOn(input: seq<Lexeme>, depth: nat,
          count: nat) returns (start: seq<Lexeme>, item: Parsed<Syntax>, more: Parsed<seq<Syntax>>)
    requires More(input) && ParseItems(input, depth, count).Good?
    ensures count < MAX_MEMBERS && SkipComma(input, count == 0) == Some(start) && item == ParseValue(start, depth)
    ensures item.Good?
    ensures more == ParseItems(item.rest, depth, count + 1) && more.Good? && |start| <= |input|
    ensures ParseItems(input, depth, count) == Good([item.value] + more.value, more.rest)
  {
    start := SkipComma(input, count == 0).value;
    item := ParseValue(start, depth);
    more := ParseItems(item.rest, depth, count + 1);
  }

  /** Where an accepted object goes on. */
  lemma MembersGoOn(input: seq<Lexeme>, depth: nat, seen: set<string>)
    returns (start: seq<Lexeme>, key: Parsed<string>, value: Parsed<Syntax>, more: Parsed<seq<Member>>)
    requires More(input) && ParseMembers(input, depth, seen).Good?
    ensures |seen| < MAX_MEMBERS && SkipComma(input, seen == {}) == Some(start) && key == ParseKey(start) && key.Good?
    ensures |key.value| <= MAX_STRING && key.value !in seen && value == ParseValue(key.rest, depth) && value.Good?
    ensures more == ParseMembers(value.rest, depth, seen + {key.value}) && more.Good? && |key.rest| < |input|
    ensures start == [StrLit(key.value), Colon] + key.rest
    ensures ParseMembers(input, depth, seen) == Good([Member(key.value, value.value)] + more.value, more.rest)
  {
    start := SkipComma(input, seen == {}).value;
    key := ParseKey(start);
    value := ParseValue(key.rest, depth);
    more := ParseMembers(value.rest, depth, seen + {key.value});
  }

  lemma JoinItems(first: bool, item: Syntax, more: seq<Syntax>, rest: seq<Lexeme>)
    ensures Separator(first) + (Unparse(item) + (UnparseItems(more, false) + [RBracket] + rest))
      == UnparseItems([item] + more, first) + [RBracket] + rest
  {
    assert ([item] + more)[1..] == more;
    ItemsText([item] + more, first, rest);
  }

  lemma JoinMembers(first: bool, m: Member, more: seq<Member>, rest: seq<Lexeme>)
    ensures Separator(first) + ([StrLit(m.key), Colon] + (Unparse(m.value) +
        (UnparseMembers(more, false) + [RBrace] + rest)))
      == UnparseMembers([m] + more, first) + [RBrace] + rest
  {
    assert ([m] + more)[1..] == more;
    MembersText([m] + more, first, rest);
  }

  lemma MembersJoined(m: Member, more: seq<Member>, depth: nat, seen: set<string>)
    requires |m.key| <= MAX_STRING && m.key !in seen && Allowed(m.value, depth)
    requires MembersAllowed(more, depth, seen + {m.key})
    ensures MembersAllowed([m] + more, depth, seen)
  {
    var all := [m] + more;
    assert forall k :: 1 <= k < |all| ==> all[k] == more[k - 1];
  }

  lemma {:induction false} SoundItems(input: seq<Lexeme>, depth: nat, count: nat)
    requires count <= MAX_MEMBERS && ParseItems(input, depth, count).Good?
    ensures var r := ParseItems(input, depth, count);
      && input == UnparseItems(r.value, count == 0) + [RBracket] + r.rest
      && count + |r.value| <= MAX_MEMBERS && ItemsAllowed(r.value, depth)
    decreases |input|, 1
  {
    if More(input) {
      var start, item, more := ItemsGoOn(input, depth, count);
      Sound(start, depth);
      SoundItems(item.rest, depth, count + 1);
      SkipIsSeparator(input, count == 0);
      JoinItems(count == 0, item.value, more.value, more.rest);
    } else {
      assert input == [input[0]] + input[1..];
    }
  }

  lemma {:induction false} SoundMembers(input: seq<Lexeme>, depth: nat, seen: set<string>)
    requires |seen| <= MAX_MEMBERS && ParseMembers(input, depth, seen).Good?
    ensures var r := ParseMembers(input, depth, seen);
      && input == UnparseMembers(r.value, seen == {}) + [RBrace] + r.rest
      && |seen| + |r.value| <= MAX_MEMBERS && MembersAllowed(r.value, depth, seen)
    decreases |input|, 1
  {
    if More(input) {
      var start, key, value, more := MembersGoOn(input, depth, seen);
      Sound(key.rest, depth);
      SoundMembers(value.rest, depth, seen + {key.value});
      SkipIsSeparator(input, seen == {});
      JoinMembers(seen == {}, Member(key.value, value.value), more.value, more.rest);
      MembersJoined(Member(key.value, value.value), more.value, depth, seen);
    } else {
      assert input == [input[0]] + input[1..];
    }
  }

  /** A text is read exactly if it is written by the grammar within the limits, and then
      as the one structure that writes it. */
  lemma ReadingIsGrammar(input: seq<Lexeme>, s: Syntax)
    ensures ParseText(input) == Some(s) <==> input == Unparse(s) && Allowed(s, 0)
  {
    if ParseText(input) == Some(s) {
      Sound(input, 0);
      assert Unparse(s) + [] == Unparse(s);
    }
    if input == Unparse(s) && Allowed(s, 0) {
      Complete(s, 0, []);
      assert Unparse(s) + [] == Unparse(s);
    }
  }
}
