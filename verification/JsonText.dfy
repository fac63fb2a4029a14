/** Whole texts: parsing, printing and marshalling. */
module JsonText {
  import opened Journals
  import opened Json
  import opened CanonicalJson
  import opened JsonDecoder
  import opened JsonValidator

  /** `parse`. */
  method Parse(input: seq<Lexeme>) returns (node: Option<Node>)
    ensures node == ParseTree(input)
  {
    if |input| == 0 {
      assert ParseValue([], 0).Fail?;
      return None;
    }
    var decoder := new Decoder(input);
    var value := ReadValue(decoder, 0);
    if value.None? {
      return None;
    }
    var end := decoder.Next();
    TrailingToken(ParseValue(input, 0).rest);
    node := if end == Eof then value else None;
  }

  class Buffer {
    var data: seq<Lexeme>

    constructor ()
      ensures data == []
    {
      data := [];
    }

    method Write(more: seq<Lexeme>)
      modifies this
      ensures data == old(data) + more
    {
      data := data + more;
    }
  }

  /** After `k` items the buffer holds all but what the rest will add. */
  ghost predicate WroteItems(before: seq<Lexeme>, now: seq<Lexeme>, all: seq<Syntax>, k: nat)
    requires k <= |all|
  {
    now + UnparseItems(all[k..], k == 0) == before + UnparseItems(all, true)
  }

  ghost predicate WroteMembers(before: seq<Lexeme>, now: seq<Lexeme>, all: seq<Member>, k: nat)
    requires k <= |all|
  {
    now + UnparseMembers(all[k..], k == 0) == before + UnparseMembers(all, true)
  }

  lemma Regroup(a: seq<Lexeme>, b: seq<Lexeme>, c: seq<Lexeme>, d: seq<Lexeme>)
    ensures a + (b + c + d) == a + b + c + d
  {
  }

  lemma WriteItem(before: seq<Lexeme>, now: seq<Lexeme>, items: seq<Node>, k: nat)
    requires k < |items| && WroteItems(before, now, CanonicalItems(items), k)
    ensures WroteItems(before, now + Separator(k == 0) + Spell(items[k]), CanonicalItems(items), k + 1)
  {
    Regroup(now, Separator(k == 0), Spell(items[k]), UnparseItems(CanonicalItems(items)[k + 1..], false));
  }

  lemma WriteMember(before: seq<Lexeme>, now: seq<Lexeme>, members: map<string, Node>, k: nat)
    requires k < |CanonicalMembers(members)| && WroteMembers(before, now, CanonicalMembers(members), k)
    ensures k < |Sorted(members.Keys)| && Sorted(members.Keys)[k] in members
    ensures var key := Sorted(members.Keys)[k];
      WroteMembers(before, now + Separator(k == 0) + [StrLit(key), Colon] + Spell(members[key]),
          CanonicalMembers(members), k + 1)
  {
    var key := Sorted(members.Keys)[k];
    Regroup(now, Separator(k == 0) + [StrLit(key), Colon], Spell(members[key]),
        UnparseMembers(CanonicalMembers(members)[k + 1..], false));
    assert now + (Separator(k == 0) + [StrLit(key), Colon]) == now + Separator(k == 0) + [StrLit(key), Colon];
  }

  method WriteSeparator(output: Buffer, first: bool)
    modifies output
    ensures output.data == old(output.data) + Separator(first)
  {
    if !first {
      output.Write([Comma]);
    }
  }

  method WriteItems(output: Buffer, items: seq<Node>)
    modifies output
    ensures output.data == old(output.data) + UnparseItems(CanonicalItems(items), true)
    decreases items, 0
  {
    ghost var all := CanonicalItems(items);
    ghost var before := output.data;
    assert all[0..] == all;
    for index := 0 to |items|
      invariant WroteItems(before, output.data, all, index)
    {
      WriteItem(before, output.data, items, index);
      WriteSeparator(output, index == 0);
      WriteNode(output, items[index]);
    }
    assert output.data + [] == output.data;
  }

  method WriteMembers(output: Buffer, members: map<string, Node>, ghost n: Node)
    requires n == Obj(members)
    modifies output
    ensures output.data == old(output.data) + UnparseMembers(CanonicalMembers(members), true)
    decreases n, 0
  {
    var keys := SortKeys(members.Keys);
    ghost var all := CanonicalMembers(members);
    ghost var before := output.data;
    assert all[0..] == all;
    for index := 0 to |keys|
      invariant WroteMembers(before, output.data, all, index)
    {
      WriteMember(before, output.data, members, index);
      WriteSeparator(output, index == 0);
      output.Write([StrLit(keys[index]), Colon]);
      WriteNode(output, members[keys[index]]);
    }
    assert output.data + [] == output.data;
  }

  method WriteNode(output: Buffer, value: Node)
    modifies output
    ensures output.data == old(output.data) + Spell(value)
    decreases value, 1
  {
    match value
    case Null => output.Write([NullLit]);
    case Bool(b) => output.Write([BoolLit(b)]);
    case Str(t) => output.Write([StrLit(t)]);
    case Num(t) => output.Write([NumLit(t)]);
    case Arr(items) =>
      output.Write([LBracket]);
      WriteItems(output, items);
      output.Write([RBracket]);
      ArrayCanonical(items);
    case Obj(members) =>
      output.Write([LBrace]);
      WriteMembers(output, members, value);
      output.Write([RBrace]);
      CanonicalObject(members);
  }

  /** `Marshal` of a raw message. */
  method MarshalRaw(input: seq<Lexeme>) returns (output: Option<seq<Lexeme>>)
    ensures output == Marshal(input)
  {
    var root := Parse(input);
    if root.None? {
      return None;
    }
    var buffer := new Buffer();
    WriteNode(buffer, root.value);
    assert [] + Spell(root.value) == Spell(root.value);
    output := Some(buffer.data);
  }
}
