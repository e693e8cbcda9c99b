/** Masking of audit entries: secrets are blanked wherever they stand in the entry, and nothing else is touched. */
module AuditMasking {
  /** A property name that is not read as a path into the object or into its prototype. */
  type Name = k: string | '.' !in k && '[' !in k && k !in {"__proto__", "constructor", "prototype"}

  datatype Primitive = Text(text: string) | Number(number: real) | Bool(flag: bool) | Null

  datatype Tree =
    | Undefined
    | Leaf(value: Primitive)
    | Obj(entries: map<Name, Tree>)
    | Arr(items: seq<Tree>)

  datatype Step = Property(name: Name) | Index(i: nat)

  const MASK: Primitive := Text("****")

  predicate IsObject(t: Tree) {
    t.Obj? || t.Arr?
  }

  // ----- Masking -----

  /** Assigning only the defined elements leaves the array as long as its last defined element needs. */
  function Trimmed(items: seq<Tree>): (r: seq<Tree>)
    ensures r <= items
    ensures r != [] ==> r[|r| - 1] != Undefined
    ensures forall i :: |r| <= i < |items| ==> items[i] == Undefined
  {
    if items != [] && items[|items| - 1] == Undefined then Trimmed(items[..|items| - 1]) else items
  }

  /** Rebuilds a nested value without its undefined properties; array elements have no name that could be masked. */
  function MaskDeep(t: Tree, fields: seq<string>): (r: Tree)
    ensures r.Undefined? <==> t.Undefined?
    decreases t, 0
  {
    match t
    case Obj(entries) => Obj(map k | k in entries && entries[k] != Undefined :: MaskProperty(k, entries[k], fields))
    case Arr(items) => Arr(Trimmed(seq(|items|, i requires 0 <= i < |items| => MaskDeep(items[i], fields))))
    case _ => t
  }

  function MaskProperty(k: Name, t: Tree, fields: seq<string>): Tree
    decreases t, 1
  {
    if IsObject(t) then MaskDeep(t, fields) else if k in fields then Leaf(MASK) else t
  }

  // ----- What masking does, path by path -----

  function Child(t: Tree, step: Step): Tree {
    match (t, step)
    case (Obj(entries), Property(k)) => if k in entries then entries[k] else Undefined
    case (Arr(items), Index(i)) => if i < |items| then items[i] else Undefined
    case _ => Undefined
  }

  function At(t: Tree, path: seq<Step>): Tree
    decreases |path|
  {
    if path == [] then t else At(Child(t, path[0]), path[1..])
  }

  predicate Secret(path: seq<Step>, fields: seq<string>) {
    path != [] && path[|path| - 1].Property? && path[|path| - 1].name in fields
  }

  /** What must stand at a path where `before` stood. */
  ghost predicate MaskedAs(before: Tree, after: Tree, secret: bool) {
    match before
    case Undefined => after == Undefined
    case Leaf(v) => after == Leaf(if secret then Text("****") else v)
    case Obj(_) => after.Obj?
    case Arr(_) => after.Arr?
  }

  lemma ChildMasked(t: Tree, step: Step, fields: seq<string>)
    requires IsObject(t)
    ensures
      var before, after := Child(t, step), Child(MaskDeep(t, fields), step);
      && (IsObject(before) ==> after == MaskDeep(before, fields))
      && (!IsObject(before) ==> MaskedAs(before, after, Secret([step], fields)))
  {
    if t.Arr? {
      var masked := seq(|t.items|, i requires 0 <= i < |t.items| => MaskDeep(t.items[i], fields));
      assert MaskDeep(t, fields) == Arr(Trimmed(masked));
      if step.Index? && step.i < |t.items| {
        assert masked[step.i] == MaskDeep(t.items[step.i], fields);
      }
    }
  }

  lemma {:induction false} NothingBelow(t: Tree, path: seq<Step>)
    requires !IsObject(t) && path != []
    ensures At(t, path) == Undefined
    decreases |path|
  {
    assert Child(t, path[0]) == Undefined;
    if |path| <= 1 {
    } else {
      NothingBelow(Undefined, path[1..]);
    }
  }

  /**
   * Along every path, at any depth: a primitive whose own name is a masked field becomes the mask, every other
   * primitive stays, objects and arrays stay what they are, and nothing appears where nothing was.
   */
  lemma {:induction false} MaskDeepAt(t: Tree, path: seq<Step>, fields: seq<string>)
    requires IsObject(t)
    ensures MaskedAs(At(t, path), At(MaskDeep(t, fields), path), Secret(path, fields))
    decreases |path|
  {
    if path == [] {
    } else {
      var before, after := Child(t, path[0]), Child(MaskDeep(t, fields), path[0]);
      ChildMasked(t, path[0], fields);
      if IsObject(before) {
        MaskDeepAt(before, path[1..], fields);
        assert path[1..] != [] ==> path[1..][|path| - 2] == path[|path| - 1];
      } else if |path| == 1 {
        assert path == [path[0]] && path[1..] == [];
        assert At(t, path) == before && At(MaskDeep(t, fields), path) == after;
      } else {
        NothingBelow(before, path[1..]);
        NothingBelow(after, path[1..]);
      }
    }
  }

  /** No undefined property and no array ending in undefined, at any depth. */
  ghost predicate Compact(t: Tree) {
    match t
    case Obj(entries) => forall k :: k in entries ==> entries[k] != Undefined && Compact(entries[k])
    case Arr(items) =>
      && (items != [] ==> items[|items| - 1] != Undefined)
      && forall i :: 0 <= i < |items| ==> Compact(items[i])
    case _ => true
  }

  lemma {:induction false} MaskDeepCompact(t: Tree, fields: seq<string>)
    ensures Compact(MaskDeep(t, fields))
    decreases t
  {
    match t
    case Obj(entries) =>
      forall k | k in entries && entries[k] != Undefined
        ensures Compact(MaskProperty(k, entries[k], fields))
      {
        MaskDeepCompact(entries[k], fields);
      }
    case Arr(items) =>
      forall i | 0 <= i < |items|
        ensures Compact(MaskDeep(items[i], fields))
      {
        MaskDeepCompact(items[i], fields);
      }
    case _ =>
  }

  ghost predicate SameAt(a: Tree, b: Tree, path: seq<Step>) {
    var x, y := At(a, path), At(b, path);
    && (x.Undefined? <==> y.Undefined?)
    && (x.Leaf? ==> x == y)
    && (x.Obj? <==> y.Obj?)
    && (x.Arr? <==> y.Arr?)
  }

  lemma SameChild(a: Tree, b: Tree, step: Step)
    requires forall path :: SameAt(a, b, path)
    ensures forall path :: SameAt(Child(a, step), Child(b, step), path)
  {
    forall path
      ensures SameAt(Child(a, step), Child(b, step), path)
    {
      assert SameAt(a, b, [step] + path);
      assert ([step] + path)[1..] == path;
    }
  }

  /** A compact tree is determined by what stands at its paths. */
  lemma {:induction false} PathsDetermine(a: Tree, b: Tree)
    requires Compact(a) && Compact(b) && forall path :: SameAt(a, b, path)
    ensures a == b
    decreases a
  {
    assert SameAt(a, b, []);
    if a.Obj? {
      forall k: Name
        ensures k in a.entries <==> k in b.entries
        ensures k in a.entries ==> a.entries[k] == b.entries[k]
      {
        SameChild(a, b, Property(k));
        assert SameAt(Child(a, Property(k)), Child(b, Property(k)), []);
        if k in a.entries {
          PathsDetermine(a.entries[k], b.entries[k]);
        }
      }
      assert a.entries == b.entries;
    } else if a.Arr? {
      SameLength(a, b);
      forall i | 0 <= i < |a.items|
        ensures a.items[i] == b.items[i]
      {
        SameChild(a, b, Index(i));
        assert Child(a, Index(i)) == a.items[i] && Child(b, Index(i)) == b.items[i];
        PathsDetermine(a.items[i], b.items[i]);
      }
    }
  }

  lemma SameLength(a: Tree, b: Tree)
    requires a.Arr? && b.Arr? && Compact(a) && Compact(b) && forall path :: SameAt(a, b, path)
    ensures |a.items| == |b.items|
  {
    if a.items != [] {
      SameChild(a, b, Index(|a.items| - 1));
      assert SameAt(Child(a, Index(|a.items| - 1)), Child(b, Index(|a.items| - 1)), []);
    }
    if b.items != [] {
      SameChild(a, b, Index(|b.items| - 1));
      assert SameAt(Child(a, Index(|b.items| - 1)), Child(b, Index(|b.items| - 1)), []);
    }
  }

  /** The masked tree is the only compact tree that answers the specification along every path. */
  lemma MaskDeepIsTheOnlyOne(t: Tree, other: Tree, fields: seq<string>)
    requires IsObject(t) && Compact(other)
    requires forall path :: MaskedAs(At(t, path), At(other, path), Secret(path, fields))
    ensures other == MaskDeep(t, fields)
  {
    forall path
      ensures SameAt(other, MaskDeep(t, fields), path)
    {
      MaskDeepAt(t, path, fields);
      assert MaskedAs(At(t, path), At(other, path), Secret(path, fields));
    }
    MaskDeepCompact(t, fields);
    PathsDetermine(other, MaskDeep(t, fields));
  }

  lemma MaskDeepTwice(t: Tree, fields: seq<string>)
    requires IsObject(t)
    ensures MaskDeep(MaskDeep(t, fields), fields) == MaskDeep(t, fields)
  {
    var once := MaskDeep(t, fields);
    forall path
      ensures MaskedAs(At(t, path), At(MaskDeep(once, fields), path), Secret(path, fields))
    {
      MaskDeepAt(t, path, fields);
      MaskDeepAt(once, path, fields);
    }
    MaskDeepCompact(once, fields);
    MaskDeepIsTheOnlyOne(t, MaskDeep(once, fields), fields);
  }

  // ----- The entry -----

  function MaskEntries(entries: map<Name, Tree>, fields: seq<string>): map<Name, Tree> {
    map k | k in entries :: MaskProperty(k, entries[k], fields)
  }

  predicate Complete(entries: map<Name, Tree>, required: seq<Name>) {
    forall r :: r in required ==> r in entries && entries[r] != Undefined
  }

  class AuditEntry {
    var entries: map<Name, Tree>

    constructor (entries: map<Name, Tree>)
      ensures this.entries == entries
    {
      this.entries := entries;
    }

    /** Masks the entry in place. Unlike below the top, an undefined value under a masked name becomes the mask. */
    method Mask(fields: seq<string>)
      modifies this
      ensures entries == MaskEntries(old(entries), fields)
    {
      var todo := entries.Keys;
      while todo != {}
        invariant todo <= entries.Keys == old(entries.Keys)
        invariant forall k :: k in entries ==>
          entries[k] == if k in todo then old(entries)[k] else MaskProperty(k, old(entries)[k], fields)
        decreases todo
      {
        var key: Name :| key in todo;
        var value := entries[key];
        if IsObject(value) {
          entries := entries[key := MaskDeep(value, fields)];
        } else if key in fields {
          entries := entries[key := Leaf(MASK)];
        }
        todo := todo - {key};
      }
    }

    /** Whether every required value is there; it is asked of the masked entry. */
    method IsComplete(required: seq<Name>) returns (ok: bool)
      ensures ok <==> forall i :: 0 <= i < |required| ==> required[i] in entries && entries[required[i]] != Undefined
      ensures ok == Complete(entries, required)
    {
      for i := 0 to |required|
        invariant Complete(entries, required[..i])
      {
        if required[i] !in entries || entries[required[i]] == Undefined {
          return false;
        }
        assert required[..i + 1] == required[..i] + [required[i]];
      }
      assert required[..|required|] == required;
      return true;
    }
  }

  /** Below the top the whole entry is masked path by path too; only the top level itself can gain a mask. */
  lemma MaskedEntryAt(entries: map<Name, Tree>, path: seq<Step>, fields: seq<string>)
    ensures
      var before, after := At(Obj(entries), path), At(Obj(MaskEntries(entries, fields)), path);
      if |path| == 1 && Secret(path, fields) && path[0].name in entries && before == Undefined
      then after == Leaf(Text("****"))
      else MaskedAs(before, after, Secret(path, fields))
  {
    if path != [] && path[0].Property? && path[0].name in entries {
      var k := path[0].name;
      var value := entries[k];
      if IsObject(value) {
        MaskDeepAt(value, path[1..], fields);
        assert path[1..] != [] ==> path[1..][|path| - 2] == path[|path| - 1];
      } else if |path| == 1 {
        assert path == [path[0]] && path[1..] == [];
      } else {
        NothingBelow(value, path[1..]);
        NothingBelow(MaskProperty(k, value, fields), path[1..]);
      }
    } else if |path| > 1 {
      NothingBelow(Undefined, path[1..]);
    }
  }

  lemma MaskEntriesTwice(entries: map<Name, Tree>, fields: seq<string>)
    ensures MaskEntries(MaskEntries(entries, fields), fields) == MaskEntries(entries, fields)
  {
    forall k | k in entries
      ensures MaskProperty(k, MaskProperty(k, entries[k], fields), fields) == MaskProperty(k, entries[k], fields)
    {
      if IsObject(entries[k]) {
        MaskDeepTwice(entries[k], fields);
      }
    }
  }

  /**
   * Asking the masked entry for completeness gives the answer for the original one, whatever the entry, exactly
   * when no required value is itself a masked field.
   */
  lemma MaskingKeepsCompletenessIff(required: seq<Name>, fields: seq<string>)
    ensures (forall entries :: Complete(MaskEntries(entries, fields), required) == Complete(entries, required))
      <==> forall r :: r in required ==> r !in fields
  {
    if r :| r in required && r in fields {
      var entries: map<Name, Tree> := map k: Name | k in required :: if k == r then Undefined else Leaf(Null);
      assert entries[r] == Undefined;
      assert !Complete(entries, required);
      assert Complete(MaskEntries(entries, fields), required);
    } else {
      forall entries: map<Name, Tree>
        ensures Complete(MaskEntries(entries, fields), required) == Complete(entries, required)
      {
        forall r | r in required && r in entries
          ensures MaskEntries(entries, fields)[r] == Undefined <==> entries[r] == Undefined
        {}
      }
    }
  }
}
