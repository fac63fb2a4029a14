/** Canonical JSON: trees with unordered members, printed with sorted keys. */
module CanonicalJson {
  import opened Journals
  import opened Json

  datatype Node = Null | Bool(b: bool) | Str(s: string) | Num(n: string) | Arr(items: seq<Node>)
    | Obj(members: map<string, Node>)

  // ---- sorted keys ----

  predicate Less(a: string, b: string) {
    if b == "" then false
    else if a == "" then true
    else if a[0] != b[0] then a[0] < b[0]
    else Less(a[1..], b[1..])
  }

  /** Text `a` stops before `b` does, or the first character they differ in is smaller. */
  predicate FirstSmaller(a: string, b: string, i: int) {
    && 0 <= i <= |a| && i < |b| && a[..i] == b[..i]
    && (i == |a| || a[i] < b[i])
  }

  /** Keys are ordered as `sort.Strings` orders them. */
  lemma {:induction false} LessIff(a: string, b: string)
    ensures Less(a, b) <==> exists i :: FirstSmaller(a, b, i)
  {
    if b == "" {
    } else if a == "" {
      assert FirstSmaller(a, b, 0);
    } else if a[0] != b[0] {
      if a[0] < b[0] { assert FirstSmaller(a, b, 0); }
      if i :| FirstSmaller(a, b, i) {
        if i > 0 { assert a[..i][0] == b[..i][0]; }
      }
    } else {
      LessIff(a[1..], b[1..]);
      if i :| FirstSmaller(a[1..], b[1..], i) {
        assert a[..i + 1] == [a[0]] + a[1..][..i] && b[..i + 1] == [b[0]] + b[1..][..i];
        assert FirstSmaller(a, b, i + 1);
      }
      if i :| FirstSmaller(a, b, i) {
        assert a[1..][..i - 1] == a[..i][1..] && b[1..][..i - 1] == b[..i][1..];
        assert FirstSmaller(a[1..], b[1..], i - 1);
      }
    }
  }

  lemma {:induction false} LessIrreflexive(a: string)
    ensures !Less(a, a)
  {
    if a == "" {
    } else {
      LessIrreflexive(a[1..]);
    }
  }

  lemma {:induction false} LessTotal(a: string, b: string)
    ensures Less(a, b) || Less(b, a) || a == b
    ensures !(Less(a, b) && Less(b, a)) && !Less(a, a)
  {
    if a != "" && b != "" && a[0] == b[0] {
      LessTotal(a[1..], b[1..]);
      assert a == [a[0]] + a[1..] && b == [b[0]] + b[1..];
    }
    if a != "" { LessIrreflexive(a); }
  }

  lemma {:induction false} LessTransitive(a: string, b: string, c: string)
    requires Less(a, b) && Less(b, c)
    ensures Less(a, c)
  {
    if a != "" && a[0] == b[0] == c[0] { LessTransitive(a[1..], b[1..], c[1..]); }
  }

  ghost predicate Ascending(keys: seq<string>) { forall i, j :: 0 <= i < j < |keys| ==> Less(keys[i], keys[j]) }

  function Insert(keys: seq<string>, k: string): seq<string> {
    if keys == [] then [k]
    else if Less(k, keys[0]) then [k] + keys
    else [keys[0]] + Insert(keys[1..], k)
  }

  lemma {:induction false} InsertMembers(keys: seq<string>, k: string)
    ensures forall x :: x in Insert(keys, k) <==> x in keys || x == k
  {
    if keys == [] {
    } else {
      assert keys == [keys[0]] + keys[1..];
      InsertMembers(keys[1..], k);
    }
  }

  lemma {:induction false} InsertAscends(keys: seq<string>, k: string)
    requires Ascending(keys) && k !in keys
    ensures Ascending(Insert(keys, k))
  {
    if keys == [] {
    } else {
      if Less(k, keys[0]) {
        forall j | 0 <= j < |keys| ensures Less(k, keys[j]) { if j > 0 { LessTransitive(k, keys[0], keys[j]); } }
      } else {
        LessTotal(k, keys[0]);
        InsertAscends(keys[1..], k);
        InsertMembers(keys[1..], k);
        var tail := Insert(keys[1..], k);
        forall j | 0 <= j < |tail| ensures Less(keys[0], tail[j]) { assert tail[j] in tail; }
      }
    }
  }

  ghost function Sorted(keys: set<string>): (r: seq<string>)
    ensures Ascending(r) && forall k :: k in r <==> k in keys
  {
    if keys == {} then []
    else
      var k :| k in keys;
      InsertAscends(Sorted(keys - {k}), k);
      InsertMembers(Sorted(keys - {k}), k);
      Insert(Sorted(keys - {k}), k)
  }

  lemma Inhabited(a: seq<string>, b: seq<string>)
    requires forall k :: k in a ==> k in b
    ensures a != [] ==> b != []
  {
    if a != [] { assert a[0] in a; }
  }

  lemma SameLeast(a: seq<string>, b: seq<string>)
    requires Ascending(a) && Ascending(b) && a != [] && b != [] && a[0] in b && b[0] in a
    ensures a[0] == b[0]
  {
    if a[0] != b[0] {
      var i :| 0 <= i < |b| && b[i] == a[0];
      var j :| 0 <= j < |a| && a[j] == b[0];
      LessTotal(a[0], b[0]);
    }
  }

  lemma TailMembers(a: seq<string>)
    requires Ascending(a) && a != []
    ensures Ascending(a[1..]) && forall k :: k in a[1..] <==> k in a && k != a[0]
  {
    forall k ensures k in a[1..] <==> k in a && k != a[0] {
      if k in a[1..] {
        var i :| 0 <= i < |a[1..]| && a[1..][i] == k;
        assert Less(a[0], a[i + 1]);
        LessTotal(k, k);
      }
      if k in a && k != a[0] {
        var i :| 0 <= i < |a| && a[i] == k;
        assert a[1..][i - 1] == k;
      }
    }
  }

  /** An ascending list is determined by its members. */
  lemma {:induction false} AscendingUnique(a: seq<string>, b: seq<string>)
    requires Ascending(a) && Ascending(b) && forall k :: k in a <==> k in b
    ensures a == b
  {
    Inhabited(a, b);
    Inhabited(b, a);
    if a == [] {
    } else {
      assert a[0] in a && b[0] in b;
      SameLeast(a, b);
      TailMembers(a);
      TailMembers(b);
      AscendingUnique(a[1..], b[1..]);
      assert a == [a[0]] + a[1..] && b == [b[0]] + b[1..];
    }
  }

  method SortKeys(keys: set<string>) returns (sorted: seq<string>)
    ensures sorted == Sorted(keys)
  {
    sorted := [];
    var rest := keys;
    while rest != {}
      invariant rest <= keys && Ascending(sorted) && forall k :: k in sorted <==> k in keys && k !in rest
      decreases |rest|
    {
      var k :| k in rest;
      InsertAscends(sorted, k);
      InsertMembers(sorted, k);
      sorted := Insert(sorted, k);
      rest := rest - {k};
    }
    AscendingUnique(sorted, Sorted(keys));
  }

  // ---- trees and texts ----

  /** The tree of a structure; member order is forgotten. */
  function ToNode(s: Syntax): Node
    decreases s, 1
  {
    match s
    case SNull => Null
    case SBool(b) => Bool(b)
    case SStr(t) => Str(t)
    case SNum(t) => Num(t)
    case SArr(items) => Arr(ToNodes(items))
    case SObj(members) => Obj(ToMap(members))
  }

  function ToNodes(items: seq<Syntax>): seq<Node>
    decreases items, 0
  {
    if items == [] then [] else [ToNode(items[0])] + ToNodes(items[1..])
  }

  function ToMap(members: seq<Member>): map<string, Node>
    decreases members, 0
  {
    if members == [] then map[] else ToMap(members[1..])[members[0].key := ToNode(members[0].value)]
  }

  /** The structure a tree is printed as. */
  ghost function Canonical(n: Node): Syntax
    decreases n
  {
    match n
    case Null => SNull
    case Bool(b) => SBool(b)
    case Str(t) => SStr(t)
    case Num(t) => SNum(t)
    case Arr(items) => SArr(seq(|items|, k requires 0 <= k < |items| => Canonical(items[k])))
    case Obj(members) =>
      var keys := Sorted(members.Keys);
      SObj(seq(|keys|, k requires 0 <= k < |keys| =>
        (assert keys[k] in members.Keys; Json.Member(keys[k], Canonical(members[keys[k]])))))
  }

  ghost function CanonicalItems(items: seq<Node>): seq<Syntax> {
    seq(|items|, k requires 0 <= k < |items| => Canonical(items[k]))
  }

  ghost function CanonicalMembers(members: map<string, Node>): seq<Member> {
    var keys := Sorted(members.Keys);
    seq(|keys|, k requires 0 <= k < |keys| =>
      (assert keys[k] in members.Keys; Json.Member(keys[k], Canonical(members[keys[k]]))))
  }

  /** The limits a text puts on its tree. */
  predicate Fits(n: Node, depth: nat)
    decreases n
  {
    match n
    case Str(t) => |t| <= MAX_STRING
    case Num(t) => IntegerText(t)
    case Arr(items) =>
      depth < MAX_DEPTH && |items| <= MAX_MEMBERS && forall k :: 0 <= k < |items| ==> Fits(items[k], depth + 1)
    case Obj(members) =>
      && depth < MAX_DEPTH && |members| <= MAX_MEMBERS
      && forall k :: k in members ==> |k| <= MAX_STRING && Fits(members[k], depth + 1)
    case _ => true
  }

  lemma {:induction false} NodesAt(items: seq<Syntax>)
    ensures |ToNodes(items)| == |items| && forall k :: 0 <= k < |items| ==> ToNodes(items)[k] == ToNode(items[k])
  {
    if items == [] {
    } else {
      NodesAt(items[1..]);
    }
  }

  predicate HasKey(members: seq<Member>, key: string) { exists k :: 0 <= k < |members| && members[k].key == key }

  lemma HasKeySplit(members: seq<Member>, key: string)
    requires members != []
    ensures HasKey(members, key) <==> key == members[0].key || HasKey(members[1..], key)
  {
    if HasKey(members, key) && key != members[0].key {
      var k :| 0 <= k < |members| && members[k].key == key;
      assert members[1..][k - 1].key == key;
    }
    if HasKey(members[1..], key) {
      var k :| 0 <= k < |members[1..]| && members[1..][k].key == key;
      assert members[k + 1].key == key;
    }
  }

  lemma {:induction false} MapKeys(members: seq<Member>)
    ensures forall key :: key in ToMap(members) <==> HasKey(members, key)
  {
    if members == [] {
    } else {
      MapKeys(members[1..]);
      forall key ensures key in ToMap(members) <==> HasKey(members, key) { HasKeySplit(members, key); }
    }
  }

  lemma {:induction false} MapAt(members: seq<Member>, k: nat)
    requires DistinctKeys(members) && k < |members|
    ensures members[k].key in ToMap(members) && ToMap(members)[members[k].key] == ToNode(members[k].value)
  {
    if k == 0 {
    } else {
      assert members[1..][k - 1] == members[k];
      MapAt(members[1..], k - 1);
    }
  }

  lemma {:induction false} MapSize(members: seq<Member>)
    requires DistinctKeys(members)
    ensures |ToMap(members)| == |members|
  {
    if members == [] {
    } else {
      MapSize(members[1..]);
      MapKeys(members[1..]);
      var key, rest := members[0].key, ToMap(members[1..]);
      forall k | 0 <= k < |members[1..]|
        ensures members[1..][k].key != key
      {
        assert members[1..][k] == members[k + 1];
      }
      assert key !in rest;
      assert ToMap(members).Keys == rest.Keys + {key};
    }
  }

  /** An allowed structure's tree fits. */
  lemma {:induction false} AllowedFits(s: Syntax, depth: nat)
    requires Allowed(s, depth)
    ensures Fits(ToNode(s), depth)
    decreases s
  {
    match s
    case SArr(items) =>
      NodesAt(items);
      forall k | 0 <= k < |items| ensures Fits(ToNodes(items)[k], depth + 1) { AllowedFits(items[k], depth + 1); }
    case SObj(members) =>
      MapKeys(members);
      MapSize(members);
      forall key | key in ToMap(members) ensures |key| <= MAX_STRING && Fits(ToMap(members)[key], depth + 1) {
        var k :| 0 <= k < |members| && members[k].key == key;
        MapAt(members, k);
        AllowedFits(members[k].value, depth + 1);
      }
    case _ =>
  }

  lemma {:induction false} DistinctSize(r: seq<string>)
    requires forall i, j :: 0 <= i < j < |r| ==> r[i] != r[j]
    ensures |set k | k in r| == |r|
  {
    if r == [] {
    } else {
      DistinctSize(r[1..]);
      assert (set k | k in r) == (set k | k in r[1..]) + {r[0]} by { assert r == [r[0]] + r[1..]; }
    }
  }

  lemma SortedSize(keys: set<string>)
    ensures |Sorted(keys)| == |keys|
    ensures forall i, j :: 0 <= i < j < |Sorted(keys)| ==> Sorted(keys)[i] != Sorted(keys)[j]
  {
    var r := Sorted(keys);
    forall i, j | 0 <= i < j < |r| ensures r[i] != r[j] { LessTotal(r[i], r[j]); }
    assert (set k | k in r) == keys;
    DistinctSize(r);
  }

  lemma MembersFit(members: map<string, Node>, depth: nat)
    requires |members| <= MAX_MEMBERS && depth < MAX_DEPTH
    requires forall key :: key in members ==> |key| <= MAX_STRING && Allowed(Canonical(members[key]), depth + 1)
    ensures Allowed(SObj(CanonicalMembers(members)), depth)
  {
    var keys, ms := Sorted(members.Keys), CanonicalMembers(members);
    SortedSize(members.Keys);
    assert |keys| == |members|;
    assert DistinctKeys(ms);
    forall k | 0 <= k < |ms|
      ensures |ms[k].key| <= MAX_STRING && Allowed(ms[k].value, depth + 1)
    {
      assert keys[k] in keys;
    }
  }

  lemma ItemsFit(items: seq<Node>, depth: nat)
    requires |items| <= MAX_MEMBERS && depth < MAX_DEPTH
    requires forall k :: 0 <= k < |items| ==> Allowed(Canonical(items[k]), depth + 1)
    ensures Allowed(SArr(CanonicalItems(items)), depth)
  {
  }

  lemma ArrayCanonical(items: seq<Node>)
    ensures Canonical(Arr(items)) == SArr(CanonicalItems(items))
  {
    assert Canonical(Arr(items)).items == CanonicalItems(items);
  }

  lemma ArrayAllowed(items: seq<Node>, depth: nat)
    requires |items| <= MAX_MEMBERS && depth < MAX_DEPTH
    requires forall k :: 0 <= k < |items| ==> Allowed(Canonical(items[k]), depth + 1)
    ensures Allowed(Canonical(Arr(items)), depth)
  {
    ItemsFit(items, depth);
    ArrayCanonical(items);
  }

  lemma CanonicalObject(members: map<string, Node>)
    ensures Canonical(Obj(members)) == SObj(CanonicalMembers(members))
  {
    assert Canonical(Obj(members)).members == CanonicalMembers(members);
  }

  lemma ObjectAllowed(members: map<string, Node>, depth: nat)
    requires |members| <= MAX_MEMBERS && depth < MAX_DEPTH
    requires forall key :: key in members ==> |key| <= MAX_STRING && Allowed(Canonical(members[key]), depth + 1)
    ensures Allowed(Canonical(Obj(members)), depth)
  {
    MembersFit(members, depth);
    CanonicalObject(members);
  }

  lemma {:induction false} ItemsAllowed(n: Node, depth: nat)
    requires n.Arr? && Fits(n, depth)
    ensures forall k :: 0 <= k < |n.items| ==> Allowed(Canonical(n.items[k]), depth + 1)
    decreases n, 0
  {
    forall k | 0 <= k < |n.items| ensures Allowed(Canonical(n.items[k]), depth + 1) {
      FitsAllowed(n.items[k], depth + 1);
    }
  }

  lemma {:induction false} MembersAllowed(n: Node, depth: nat)
    requires n.Obj? && Fits(n, depth)
    ensures forall key :: key in n.members ==>
      |key| <= MAX_STRING && Allowed(Canonical(n.members[key]), depth + 1)
    decreases n, 0
  {
    forall key | key in n.members
      ensures |key| <= MAX_STRING && Allowed(Canonical(n.members[key]), depth + 1)
    {
      FitsAllowed(n.members[key], depth + 1);
    }
  }

  /** The printed structure of a fitting tree is allowed. */
  lemma {:induction false} FitsAllowed(n: Node, depth: nat)
    requires Fits(n, depth)
    ensures Allowed(Canonical(n), depth)
    decreases n, 1
  {
    match n
    case Arr(items) =>
      ItemsAllowed(n, depth);
      ArrayAllowed(items, depth);
    case Obj(members) =>
      MembersAllowed(n, depth);
      ObjectAllowed(members, depth);
    case _ =>
  }

  lemma SameMap(ms: seq<Member>, members: map<string, Node>)
    requires forall key :: HasKey(ms, key) <==> key in members
    requires forall key :: key in members ==> key in ToMap(ms) && ToMap(ms)[key] == members[key]
    ensures ToMap(ms) == members
  {
    MapKeys(ms);
  }

  lemma KeyAt(members: map<string, Node>, key: string) returns (k: nat)
    requires key in members
    ensures k < |CanonicalMembers(members)| && CanonicalMembers(members)[k] == Json.Member(key, Canonical(members[key]))
  {
    var keys := Sorted(members.Keys);
    assert key in keys;
    k :| 0 <= k < |keys| && keys[k] == key;
  }

  lemma CanonicalKeys(members: map<string, Node>, key: string)
    ensures HasKey(CanonicalMembers(members), key) <==> key in members
  {
    if key in members {
      var k := KeyAt(members, key);
      assert CanonicalMembers(members)[k].key == key;
    }
    if HasKey(CanonicalMembers(members), key) {
      var keys := Sorted(members.Keys);
      var k :| 0 <= k < |keys| && CanonicalMembers(members)[k].key == key;
      assert keys[k] in keys;
    }
  }

  lemma MembersTree(members: map<string, Node>)
    requires forall key :: key in members ==> ToNode(Canonical(members[key])) == members[key]
    ensures ToMap(CanonicalMembers(members)) == members
  {
    var ms := CanonicalMembers(members);
    SortedSize(members.Keys);
    forall key ensures HasKey(ms, key) <==> key in members { CanonicalKeys(members, key); }
    forall key | key in members ensures key in ToMap(ms) && ToMap(ms)[key] == members[key] {
      var k := KeyAt(members, key);
      MapAt(ms, k);
    }
    SameMap(ms, members);
  }

  /** Printing loses nothing of the tree. */
  lemma {:induction false} CanonicalTree(n: Node)
    ensures ToNode(Canonical(n)) == n
    decreases n
  {
    match n
    case Arr(items) =>
      NodesAt(CanonicalItems(items));
      forall k | 0 <= k < |items| ensures ToNode(Canonical(items[k])) == items[k] { CanonicalTree(items[k]); }
      assert ToNodes(CanonicalItems(items)) == items;
    case Obj(members) =>
      forall key | key in members
        ensures ToNode(Canonical(members[key])) == members[key]
      {
        CanonicalTree(members[key]);
      }
      MembersTree(members);
      CanonicalObject(members);
    case _ =>
  }

  // ---- parse, print, marshal ----

  function ParseTree(input: seq<Lexeme>): Option<Node> {
    match ParseText(input)
    case None => None
    case Some(s) => Some(ToNode(s))
  }

  ghost function Spell(n: Node): seq<Lexeme> { Unparse(Canonical(n)) }

  ghost function Marshal(input: seq<Lexeme>): Option<seq<Lexeme>> {
    match ParseTree(input)
    case None => None
    case Some(n) => Some(Spell(n))
  }

  lemma SpellParses(n: Node)
    requires Fits(n, 0)
    ensures ParseTree(Spell(n)) == Some(n)
  {
    FitsAllowed(n, 0);
    CanonicalTree(n);
    ReadingIsGrammar(Spell(n), Canonical(n));
  }

  lemma ParsedFits(input: seq<Lexeme>)
    requires ParseTree(input).Some?
    ensures Fits(ParseTree(input).value, 0)
  {
    var s := ParseText(input).value;
    ReadingIsGrammar(input, s);
    AllowedFits(s, 0);
  }

  /** Parsing the printed form of a parsed tree gives the tree back, and printing that is
      the same text: marshalling its own output changes nothing. */
  lemma RoundTrip(input: seq<Lexeme>)
    requires ParseTree(input).Some?
    ensures var n := ParseTree(input).value;
      && ParseTree(Spell(n)) == Some(n)
      && Marshal(input) == Some(Spell(n)) && Marshal(Spell(n)) == Some(Spell(n))
  {
    ParsedFits(input);
    SpellParses(ParseTree(input).value);
  }

  /** Different trees print differently. */
  lemma PrintingIsInjective(m: Node, n: Node)
    requires Fits(m, 0) && Fits(n, 0) && Spell(m) == Spell(n)
    ensures m == n
  {
    SpellParses(m);
    SpellParses(n);
  }

  /** Two structures that differ at most in the order of members, at any level. */
  ghost predicate Reorders(s: Syntax, t: Syntax)
    decreases s
  {
    if s.SArr? && t.SArr? then |s.items| == |t.items| && forall k :: 0 <= k < |s.items| ==>
      Reorders(s.items[k], t.items[k])
    else if s.SObj? && t.SObj? then
      && (forall key :: HasKey(s.members, key) <==> HasKey(t.members, key))
      && (forall i, j :: 0 <= i < |s.members| && 0 <= j < |t.members| ==>
        s.members[i].key == t.members[j].key ==> Reorders(s.members[i].value, t.members[j].value))
    else s == t
  }

  lemma {:induction false} ReorderedTree(s: Syntax, t: Syntax, depth: nat)
    requires Reorders(s, t) && Allowed(s, depth) && Allowed(t, depth)
    ensures ToNode(s) == ToNode(t)
    decreases s
  {
    if s.SArr? && t.SArr? {
      NodesAt(s.items);
      NodesAt(t.items);
      forall k | 0 <= k < |s.items|
        ensures ToNode(s.items[k]) == ToNode(t.items[k])
      {
        ReorderedTree(s.items[k], t.items[k], depth + 1);
      }
      assert ToNodes(s.items) == ToNodes(t.items);
    } else if s.SObj? && t.SObj? {
      MapKeys(s.members);
      MapKeys(t.members);
      forall key | key in ToMap(s.members) ensures ToMap(s.members)[key] == ToMap(t.members)[key] {
        var i :| 0 <= i < |s.members| && s.members[i].key == key;
        assert HasKey(t.members, key);
        var j :| 0 <= j < |t.members| && t.members[j].key == key;
        MapAt(s.members, i);
        MapAt(t.members, j);
        ReorderedTree(s.members[i].value, t.members[j].value, depth + 1);
      }
      assert ToMap(s.members) == ToMap(t.members);
    }
  }

  /** The output does not depend on the order members were written in. */
  lemma OrderIndependent(s: Syntax, t: Syntax)
    requires Reorders(s, t) && Allowed(s, 0) && Allowed(t, 0)
    ensures Marshal(Unparse(s)).Some? && Marshal(Unparse(s)) == Marshal(Unparse(t))
  {
    ReadingIsGrammar(Unparse(s), s);
    ReadingIsGrammar(Unparse(t), t);
    ReorderedTree(s, t, 0);
  }
}
