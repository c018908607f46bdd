/**
 * Environment overrides (internal/config/envsubst.go): the tree of YAML fields built from the
 * configuration types, and the backtracking match of an underscore-separated name against it.
 */
module FieldPath {
  import opened Options

  /** fieldNode; `typ` stands for the Go type. */
  datatype Node = Node(key: string, typ: string, children: map<string, Node>)

  function NormalizeChar(c: char): char {
    if c == '-' then '_' else if 'A' <= c <= 'Z' then c - 'A' + 'a' else c
  }

  function NormalizeKey(key: string): string {
    seq(|key|, i requires 0 <= i < |key| => NormalizeChar(key[i]))
  }

  /** Dashes become underscores, capital letters small ones, and nothing else changes. */
  lemma NormalizeKeyIs(key: string)
    ensures |NormalizeKey(key)| == |key|
    ensures forall i :: 0 <= i < |key| ==>
              var c, d := key[i], NormalizeKey(key)[i];
              if c == '-' then d == '_'
              else if 'A' <= c <= 'Z' then 'a' <= d <= 'z' && d as int - c as int == 32
              else d == c
    ensures NormalizeKey(NormalizeKey(key)) == NormalizeKey(key)
  {
  }

  // ----- the field tree

  /** What reflection shows of a type: a pointer, a struct with yaml tags, or anything else. */
  datatype Type = Pointer(elem: Type) | Struct(name: string, fields: seq<Field>) | Other(name: string)

  datatype Field = Field(tag: string, typ: Type)

  /** The part of a tag before the first comma. */
  function TagName(tag: string): string {
    if tag == "" || tag[0] == ',' then "" else [tag[0]] + TagName(tag[1..])
  }

  /** It has no comma, and a comma follows it unless it is the whole tag. */
  lemma {:induction false} TagNameIs(tag: string)
    ensures ',' !in TagName(tag) && TagName(tag) <= tag
    ensures |TagName(tag)| < |tag| ==> tag[|TagName(tag)|] == ','
  {
    if tag != "" && tag[0] != ',' {
      TagNameIs(tag[1..]);
      assert tag == [tag[0]] + tag[1..];
    }
  }

  predicate IsKey(tag: string) {
    tag != "" && tag != "-" && TagName(tag) != "" && TagName(tag) != "-"
  }

  /** Tags without a name, and the name that stands for "not in YAML", are passed over. */
  lemma IsKeyIs(tag: string)
    ensures IsKey(tag) <==> tag != "" && tag[0] != ',' && tag != "-" && !(|tag| > 1 && tag[..2] == "-,")
  {
    if tag != "" && tag[0] != ',' {
      assert TagName(tag) == [tag[0]] + TagName(tag[1..]);
      if |tag| > 1 && tag[1] != ',' {
        assert TagName(tag[1..]) == [tag[1]] + TagName(tag[1..][1..]);
      }
    }
  }

  /** buildFieldNode, for the node itself; its key is set by the parent. */
  function FieldTree(t: Type): Node
    decreases t, 1
  {
    match t
    case Pointer(elem) => FieldTree(elem)
    case Struct(name, fields) => Node("", name, FieldChildren(fields))
    case Other(name) => Node("", name, map[])
  }

  function FieldChildren(fields: seq<Field>): map<string, Node>
    decreases fields, 0
  {
    if fields == [] then map[]
    else
      var front, f := FieldChildren(fields[..|fields| - 1]), fields[|fields| - 1];
      if IsKey(f.tag) then front[NormalizeKey(TagName(f.tag)) := FieldTree(f.typ).(key := TagName(f.tag))] else front
  }

  method BuildFieldNode(t: Type) returns (node: Node)
    ensures node == FieldTree(t)
    decreases t
  {
    var s := t;
    while s.Pointer?
      invariant (s == t || s < t) && FieldTree(s) == FieldTree(t)
      decreases s
    {
      s := s.elem;
    }
    if !s.Struct? {
      return Node("", s.name, map[]);
    }
    var children := map[];
    for i := 0 to |s.fields|
      invariant children == FieldChildren(s.fields[..i])
    {
      assert s.fields[..i + 1][..i] == s.fields[..i];
      var f := s.fields[i];
      if IsKey(f.tag) {
        var child := BuildFieldNode(f.typ);
        children := children[NormalizeKey(TagName(f.tag)) := child.(key := TagName(f.tag))];
      }
    }
    assert s.fields[..|s.fields|] == s.fields;
    return Node("", s.name, children);
  }

  /** The node reached by following children under the given map keys. */
  function Walk(node: Node, keys: seq<string>): Option<Node>
    decreases |keys|
  {
    if keys == [] then Some(node)
    else if keys[0] in node.children then Walk(node.children[keys[0]], keys[1..])
    else None
  }

  /** Every child is stored under its own key, normalised. */
  ghost predicate LocallyKeyed(node: Node) {
    forall k :: k in node.children ==> NormalizeKey(node.children[k].key) == k
  }

  ghost predicate WellKeyed(node: Node) {
    forall keys {:trigger Walk(node, keys)} :: Walk(node, keys).Some? ==> LocallyKeyed(Walk(node, keys).value)
  }

  /** The field is stored under `k`: fields without a yaml key are not stored at all. */
  predicate StoredUnder(f: Field, k: string) {
    IsKey(f.tag) && NormalizeKey(TagName(f.tag)) == k
  }

  /** A child stands for the last field stored under its key. */
  lemma {:induction false} ChildComesFromField(fields: seq<Field>, k: string) returns (i: nat)
    requires k in FieldChildren(fields)
    ensures i < |fields| && StoredUnder(fields[i], k)
    ensures forall j :: i < j < |fields| ==> !StoredUnder(fields[j], k)
    ensures FieldChildren(fields)[k] == FieldTree(fields[i].typ).(key := TagName(fields[i].tag))
    decreases |fields|
  {
    var last := |fields| - 1;
    if StoredUnder(fields[last], k) {
      i := last;
    } else {
      i := ChildComesFromField(fields[..last], k);
    }
  }

  /** Every field with a key has a child. */
  lemma {:induction false} FieldHasChild(fields: seq<Field>, i: nat, k: string)
    requires i < |fields| && StoredUnder(fields[i], k)
    ensures k in FieldChildren(fields)
    decreases |fields|
  {
    var last := |fields| - 1;
    if i < last {
      FieldHasChild(fields[..last], i, k);
    }
  }

  lemma {:induction false} TreeKeyed(t: Type, key: string, keys: seq<string>)
    ensures var node := FieldTree(t).(key := key);
            Walk(node, keys).Some? ==> LocallyKeyed(Walk(node, keys).value)
    decreases |keys|, t
  {
    var node := FieldTree(t).(key := key);
    if t.Pointer? {
      TreeKeyed(t.elem, key, keys);
    } else if t.Struct? {
      if keys == [] {
        forall k | k in node.children ensures NormalizeKey(node.children[k].key) == k {
          var i := ChildComesFromField(t.fields, k);
        }
      } else if keys[0] in node.children {
        var i := ChildComesFromField(t.fields, keys[0]);
        TreeKeyed(t.fields[i].typ, TagName(t.fields[i].tag), keys[1..]);
      }
    }
  }

  /** The trees the overrides use are well keyed, at every depth. */
  lemma FieldTreeWellKeyed(t: Type)
    ensures WellKeyed(FieldTree(t))
  {
    forall keys | Walk(FieldTree(t), keys).Some? ensures LocallyKeyed(Walk(FieldTree(t), keys).value) {
      RootKeyEmpty(t);
      TreeKeyed(t, "", keys);
    }
  }

  lemma RootKeyEmpty(t: Type)
    ensures FieldTree(t).(key := "") == FieldTree(t)
  {
  }

  /** What a type is behind its pointers. */
  function Base(t: Type): (b: Type)
    ensures !b.Pointer? && (b == t || b < t)
    decreases t
  {
    if t.Pointer? then Base(t.elem) else t
  }

  /** The last field stored under a key. */
  ghost predicate IsField(fields: seq<Field>, i: nat, k: string) {
    i < |fields| && StoredUnder(fields[i], k) && forall j :: i < j < |fields| ==> !StoredUnder(fields[j], k)
  }

  /** Following the keys from field to field ends at something of this type, under this tag name. */
  ghost predicate Leads(t: Type, tag: string, keys: seq<string>, typ: string, key: string)
    decreases |keys|
  {
    if keys == [] then typ == Base(t).name && key == tag
    else
      Base(t).Struct? && exists i: nat ::
        IsField(Base(t).fields, i, keys[0])
        && Leads(Base(t).fields[i].typ, TagName(Base(t).fields[i].tag), keys[1..], typ, key)
  }

  lemma {:induction false} TreeOfBase(t: Type)
    ensures FieldTree(t) == FieldTree(Base(t))
    decreases t
  {
    if t.Pointer? {
      TreeOfBase(t.elem);
    }
  }

  lemma OneField(fields: seq<Field>, i: nat, j: nat, k: string)
    requires IsField(fields, i, k) && IsField(fields, j, k)
    ensures i == j
  {
  }

  /** The tree has exactly the nodes that the types have fields for, with their names and types. */
  lemma {:induction false} TreeExactly(t: Type, tag: string, keys: seq<string>, typ: string, key: string)
    ensures var n := Walk(FieldTree(t).(key := tag), keys);
            n.Some? && n.value.typ == typ && n.value.key == key <==> Leads(t, tag, keys, typ, key)
    decreases |keys|
  {
    TreeOfBase(t);
    var b := Base(t);
    if keys != [] && b.Struct? {
      var k := keys[0];
      if k in FieldChildren(b.fields) {
        var i := ChildComesFromField(b.fields, k);
        assert IsField(b.fields, i, k);
        TreeExactly(b.fields[i].typ, TagName(b.fields[i].tag), keys[1..], typ, key);
        forall j | IsField(b.fields, j, k) ensures i == j {
          OneField(b.fields, i, j, k);
        }
      } else {
        if i: nat :| IsField(b.fields, i, k) {
          FieldHasChild(b.fields, i, k);
        }
      }
    }
  }

  // ----- matching a name

  function Underscored(parts: seq<string>): string
    decreases |parts|
  {
    if parts == [] then "" else if |parts| == 1 then parts[0] else parts[0] + "_" + Underscored(parts[1..])
  }

  function Flat(groups: seq<seq<string>>): seq<string>
    decreases |groups|
  {
    if groups == [] then [] else groups[0] + Flat(groups[1..])
  }

  /** The groups, each joined by underscores, name a path of children from `node`. */
  ghost predicate Names(node: Node, groups: seq<seq<string>>)
    decreases |groups|
  {
    groups == [] ||
    (groups[0] != [] && Underscored(groups[0]) in node.children &&
     Names(node.children[Underscored(groups[0])], groups[1..]))
  }

  ghost predicate Fits(node: Node, tokens: seq<string>, groups: seq<seq<string>>) {
    Flat(groups) == tokens && Names(node, groups)
  }

  /** The keys of the nodes along the path the groups name. */
  ghost function KeysAlong(node: Node, groups: seq<seq<string>>): seq<string>
    requires Names(node, groups)
    decreases |groups|
  {
    if groups == [] then []
    else
      var child := node.children[Underscored(groups[0])];
      [child.key] + KeysAlong(child, groups[1..])
  }

  /** `a` takes a longer group than `b` where they first differ. */
  ghost predicate Prefers(a: seq<seq<string>>, b: seq<seq<string>>)
    decreases |a|
  {
    a == [] || b == [] || |a[0]| > |b[0]| || (|a[0]| == |b[0]| && Prefers(a[1..], b[1..]))
  }

  ghost predicate NoLongerFirst(node: Node, tokens: seq<string>, i: nat) {
    forall other {:trigger Fits(node, tokens, other)} :: Fits(node, tokens, other) && other != [] ==> |other[0]| <= i
  }

  /**
   * Succeeds exactly when some grouping of the tokens names a path, and then follows the grouping that
   * takes the longest groups first.
   */
  method MatchFieldPath(node: Node, tokens: seq<string>)
    returns (path: seq<string>, ok: bool, ghost groups: seq<seq<string>>)
    ensures ok <==> exists g :: Fits(node, tokens, g)
    ensures ok ==> Fits(node, tokens, groups) && path == KeysAlong(node, groups)
    ensures ok ==> forall other :: Fits(node, tokens, other) ==> Prefers(groups, other)
    decreases |tokens|
  {
    if |tokens| == 0 {
      path, ok, groups := [], true, [];
      assert Fits(node, tokens, []);
      return;
    }
    var i: nat := |tokens|;
    FirstGroupShort(node, tokens);
    while i >= 1
      invariant i <= |tokens| && NoLongerFirst(node, tokens, i)
    {
      var candidate := Underscored(tokens[..i]);
      if candidate in node.children {
        var child := node.children[candidate];
        var rest, found;
        ghost var tail;
        rest, found, tail := MatchFieldPath(child, tokens[i..]);
        if found {
          groups := [tokens[..i]] + tail;
          path, ok := [child.key] + rest, true;
          Prepended(node, tokens, i, tail);
          forall other | Fits(node, tokens, other) ensures Prefers(groups, other) {
            PreferredFirst(node, tokens, i, tail, other);
          }
          return;
        }
      }
      NotThisLong(node, tokens, i);
      i := i - 1;
    }
    forall g ensures !Fits(node, tokens, g) {
      NonEmptyGrouping(node, tokens, g);
    }
    path, ok, groups := [], false, [];
  }

  lemma NonEmptyGrouping(node: Node, tokens: seq<string>, g: seq<seq<string>>)
    requires tokens != [] && NoLongerFirst(node, tokens, 0)
    ensures !Fits(node, tokens, g)
  {
  }

  lemma FirstGroupShort(node: Node, tokens: seq<string>)
    ensures NoLongerFirst(node, tokens, |tokens|)
  {
    forall other | Fits(node, tokens, other) && other != [] ensures |other[0]| <= |tokens| {
      assert |Flat(other)| == |other[0]| + |Flat(other[1..])|;
    }
  }

  /** A grouping that starts with `i` tokens continues with a grouping of the others. */
  lemma FirstGroupIs(node: Node, tokens: seq<string>, other: seq<seq<string>>)
    requires Fits(node, tokens, other) && other != []
    ensures 0 < |other[0]| <= |tokens| && other[0] == tokens[..|other[0]|]
    ensures Underscored(other[0]) in node.children
    ensures Fits(node.children[Underscored(other[0])], tokens[|other[0]|..], other[1..])
  {
    assert tokens == other[0] + Flat(other[1..]);
  }

  lemma NotThisLong(node: Node, tokens: seq<string>, i: nat)
    requires 0 < i <= |tokens| && NoLongerFirst(node, tokens, i)
    requires Underscored(tokens[..i]) in node.children ==>
               !exists g :: Fits(node.children[Underscored(tokens[..i])], tokens[i..], g)
    ensures NoLongerFirst(node, tokens, i - 1)
  {
    forall other | Fits(node, tokens, other) && other != [] ensures |other[0]| <= i - 1 {
      FirstGroupIs(node, tokens, other);
    }
  }

  lemma Prepended(node: Node, tokens: seq<string>, i: nat, tail: seq<seq<string>>)
    requires 0 < i <= |tokens| && Underscored(tokens[..i]) in node.children
    requires Fits(node.children[Underscored(tokens[..i])], tokens[i..], tail)
    ensures Fits(node, tokens, [tokens[..i]] + tail)
    ensures KeysAlong(node, [tokens[..i]] + tail) ==
            [node.children[Underscored(tokens[..i])].key] + KeysAlong(node.children[Underscored(tokens[..i])], tail)
  {
    var groups := [tokens[..i]] + tail;
    assert groups[1..] == tail;
    assert tokens == tokens[..i] + tokens[i..];
  }

  lemma PreferredFirst(node: Node, tokens: seq<string>, i: nat, tail: seq<seq<string>>, other: seq<seq<string>>)
    requires 0 < i <= |tokens| && NoLongerFirst(node, tokens, i) && Fits(node, tokens, other)
    requires Underscored(tokens[..i]) in node.children
    requires forall o :: Fits(node.children[Underscored(tokens[..i])], tokens[i..], o) ==> Prefers(tail, o)
    ensures Prefers([tokens[..i]] + tail, other)
  {
    var groups := [tokens[..i]] + tail;
    assert groups[1..] == tail;
    if other != [] {
      FirstGroupIs(node, tokens, other);
      if |other[0]| == i {
        assert Prefers(tail, other[1..]);
      }
    }
  }

  // ----- the path found

  function Normalized(path: seq<string>): seq<string> {
    seq(|path|, i requires 0 <= i < |path| => NormalizeKey(path[i]))
  }

  /** fieldType: the type of the node the path names. */
  method FieldType(tree: Node, path: seq<string>) returns (typ: Option<string>)
    ensures typ == match Walk(tree, Normalized(path)) case Some(n) => Some(n.typ) case None => None
  {
    var node := tree;
    for i := 0 to |path|
      invariant Walk(tree, Normalized(path)) == Walk(node, Normalized(path[i..]))
    {
      assert Normalized(path[i..])[0] == NormalizeKey(path[i]);
      assert Normalized(path[i..])[1..] == Normalized(path[i + 1..]);
      if NormalizeKey(path[i]) !in node.children {
        return None;
      }
      node := node.children[NormalizeKey(path[i])];
    }
    return Some(node.typ);
  }

  lemma WellKeyedChild(node: Node, k: string)
    requires WellKeyed(node) && k in node.children
    ensures WellKeyed(node.children[k]) && NormalizeKey(node.children[k].key) == k
  {
    assert Walk(node, []) == Some(node);
    var child := node.children[k];
    forall keys | Walk(child, keys).Some? ensures LocallyKeyed(Walk(child, keys).value) {
      assert ([k] + keys)[1..] == keys;
      assert Walk(node, [k] + keys) == Walk(child, keys);
    }
  }

  /** The path's keys, normalised, re-join to the input name, and the tree has the field they name. */
  lemma {:induction false} PathNamesField(node: Node, groups: seq<seq<string>>)
    requires WellKeyed(node) && Names(node, groups)
    ensures Walk(node, Normalized(KeysAlong(node, groups))).Some?
    ensures Underscored(Normalized(KeysAlong(node, groups))) == Underscored(Flat(groups))
    decreases |groups|
  {
    if groups == [] {
      assert Normalized([]) == [];
    } else {
      var k := Underscored(groups[0]);
      var child := node.children[k];
      WellKeyedChild(node, k);
      PathNamesField(child, groups[1..]);
      var keys := Normalized(KeysAlong(node, groups));
      assert keys[0] == k && keys[1..] == Normalized(KeysAlong(child, groups[1..]));
      if |groups| == 1 {
        assert KeysAlong(child, groups[1..]) == [] && groups[0] + [] == groups[0];
      } else {
        FlatNonEmpty(child, groups[1..]);
        UnderscoredConcat(groups[0], Flat(groups[1..]));
      }
    }
  }

  lemma FlatNonEmpty(node: Node, groups: seq<seq<string>>)
    requires groups != [] && Names(node, groups)
    ensures Flat(groups) != []
  {
    assert |Flat(groups)| >= |groups[0]|;
  }

  lemma {:induction false} UnderscoredConcat(a: seq<string>, b: seq<string>)
    requires a != [] && b != []
    ensures Underscored(a + b) == Underscored(a) + "_" + Underscored(b)
    decreases |a|
  {
    assert (a + b)[1..] == a[1..] + b;
    if |a| == 1 {
      assert a[1..] + b == b;
    } else {
      UnderscoredConcat(a[1..], b);
      assert a[0] + "_" + (Underscored(a[1..]) + "_" + Underscored(b)) ==
             (a[0] + "_" + Underscored(a[1..])) + "_" + Underscored(b);
    }
  }
}
