/** Flattening a tree of validation errors into a record keyed by dotted paths. */
module ValidationPipe {
  import opened Types

  /** `constraints` holds the messages of the violated constraints, in order. */
  datatype ValidationError = ValidationError(
    property: string,
    constraints: Option<seq<string>>,
    children: seq<ValidationError>)

  type Record = map<string, seq<string>>

  datatype Entry = Entry(key: string, messages: seq<string>)

  function Join(parent: string, property: string): string {
    if parent != "" then parent + "." + property else property
  }

  /** What is written to the record for one node and what lies below it, in the order of writing. */
  function EntriesOf(error: ValidationError, parent: string): seq<Entry>
    decreases error, 1
  {
    var path := Join(parent, error.property);
    (if error.constraints.Some? then [Entry(path, error.constraints.value)] else []) + Entries(error.children, path)
  }

  function Entries(errors: seq<ValidationError>, parent: string): seq<Entry>
    decreases errors, 0
  {
    if errors == [] then []
    else Entries(errors[..|errors| - 1], parent) + EntriesOf(errors[|errors| - 1], parent)
  }

  /** Writing entries one after the other: a later one overwrites an earlier one of the same key. */
  function Written(entries: seq<Entry>): Record {
    if entries == [] then map[]
    else
      var last := entries[|entries| - 1];
      Written(entries[..|entries| - 1])[last.key := last.messages]
  }

  lemma {:induction false} WrittenJoins(a: seq<Entry>, b: seq<Entry>)
    ensures Written(a + b) == Written(a) + Written(b)
  {
    if b == [] {
      assert a + b == a;
    } else {
      var front := b[..|b| - 1];
      assert (a + b)[..|a + b| - 1] == a + front;
      WrittenJoins(a, front);
    }
  }

  lemma EntriesAppend(errors: seq<ValidationError>, i: nat, parent: string)
    requires i < |errors|
    ensures Entries(errors[..i + 1], parent) == Entries(errors[..i], parent) + EntriesOf(errors[i], parent)
  {
    assert errors[..i + 1][..i] == errors[..i];
  }

  /** What the node itself contributes. */
  function Own(error: ValidationError, path: string): Record {
    if error.constraints.Some? then map[path := error.constraints.value] else map[]
  }

  lemma WrittenOf(error: ValidationError, parent: string)
    ensures var path := Join(parent, error.property);
            Written(EntriesOf(error, parent)) == Own(error, path) + Written(Entries(error.children, path))
  {
    var path := Join(parent, error.property);
    hide Entries, Join;
    var below := Entries(error.children, path);
    if error.constraints.Some? {
      var own := [Entry(path, error.constraints.value)];
      assert own[..0] == [];
      WrittenJoins(own, below);
    } else {
      assert [] + below == below;
      assert map[] + Written(below) == Written(below);
    }
  }

  /** The record after one more error has been dealt with. */
  lemma OneMore(errors: seq<ValidationError>, i: nat, parent: string, path: string)
    requires i < |errors| && path == Join(parent, errors[i].property)
    ensures Written(Entries(errors[..i + 1], parent))
         == Written(Entries(errors[..i], parent)) + Own(errors[i], path) + Written(Entries(errors[i].children, path))
  {
    hide Entries, EntriesOf, Written, Own, Join;
    EntriesAppend(errors, i, parent);
    WrittenOf(errors[i], parent);
    WrittenJoins(Entries(errors[..i], parent), EntriesOf(errors[i], parent));
    PlusTwice(Written(Entries(errors[..i], parent)), Own(errors[i], path), Written(Entries(errors[i].children, path)));
  }

  lemma PlusTwice(a: Record, b: Record, c: Record)
    ensures a + (b + c) == a + b + c
  {
  }

  lemma NothingWritten(parent: string)
    ensures Written(Entries([], parent)) == map[]
  {
  }

  /** The pipe's own loop and recursion. */
  method FormatErrors(errors: seq<ValidationError>, parentPath: string) returns (result: Record)
    ensures result == Written(Entries(errors, parentPath))
    decreases errors
  {
    hide Written, Entries;
    result := map[];
    NothingWritten(parentPath);
    assert errors[..0] == [];
    for i := 0 to |errors|
      invariant result == Written(Entries(errors[..i], parentPath))
    {
      var error := errors[i];
      var propertyPath := if parentPath != "" then parentPath + "." + error.property else error.property;
      OneMore(errors, i, parentPath, propertyPath);
      if error.constraints.Some? {
        result := result[propertyPath := error.constraints.value];
      }
      if |error.children| > 0 {
        var childErrors := FormatErrors(error.children, propertyPath);
        result := result + childErrors;
      } else {
        NothingWritten(propertyPath);
      }
    }
    assert errors[..|errors|] == errors;
  }

  // ---------- The tree itself ----------

  predicate GoodName(name: string) {
    name != "" && '.' !in name
  }

  /** No name is empty. */
  predicate Named(errors: seq<ValidationError>)
    decreases errors
  {
    forall i | 0 <= i < |errors| :: errors[i].property != "" && Named(errors[i].children)
  }

  /** Names are neither empty nor dotted, and siblings have different names. */
  predicate WellNamed(errors: seq<ValidationError>)
    decreases errors
  {
    && (forall i | 0 <= i < |errors| :: GoodName(errors[i].property) && WellNamed(errors[i].children))
    && (forall i, j | 0 <= i < j < |errors| :: errors[i].property != errors[j].property)
  }

  /** A node named by the properties on the way to it carries these messages. */
  predicate Carries(errors: seq<ValidationError>, names: seq<string>, messages: seq<string>): (carries: bool)
    ensures carries ==> names != []
    decreases names
  {
    && names != []
    && exists i | 0 <= i < |errors| ::
         && errors[i].property == names[0]
         && (if |names| == 1 then errors[i].constraints == Some(messages)
             else Carries(errors[i].children, names[1..], messages))
  }

  function Dotted(names: seq<string>): string
    requires names != []
  {
    if |names| == 1 then names[0] else names[0] + "." + Dotted(names[1..])
  }

  // ---------- Dotted paths are unambiguous ----------

  predicate GoodNames(names: seq<string>) {
    names != [] && forall i | 0 <= i < |names| :: GoodName(names[i])
  }

  /** The position of the first dot, or the length if there is none. */
  function FirstDot(s: string): nat {
    if s == "" || s[0] == '.' then 0 else 1 + FirstDot(s[1..])
  }

  lemma {:induction false} FirstDotAt(name: string, rest: string)
    requires '.' !in name && (rest == "" || rest[0] == '.')
    ensures FirstDot(name + rest) == |name|
  {
    if name != "" {
      assert (name + rest)[1..] == name[1..] + rest;
      FirstDotAt(name[1..], rest);
    } else {
      assert name + rest == rest;
    }
  }

  /** The first name of a path is what stands before its first dot. */
  lemma HeadOfDotted(names: seq<string>)
    requires GoodNames(names)
    ensures names[0] <= Dotted(names) && |names[0]| == FirstDot(Dotted(names))
    ensures |names| == 1 <==> |Dotted(names)| == |names[0]|
    ensures |names| > 1 ==> Dotted(names)[|names[0]| + 1..] == Dotted(names[1..])
  {
    assert GoodName(names[0]);
    if |names| == 1 {
      FirstDotAt(names[0], "");
      assert names[0] + "" == names[0];
    } else {
      var rest := Dotted(names[1..]);
      FirstDotAt(names[0], "." + rest);
      assert names[0] + ("." + rest) == names[0] + "." + rest;
      assert (names[0] + "." + rest)[|names[0]| + 1..] == rest;
    }
  }

  lemma {:induction false} DottedInjective(names: seq<string>, others: seq<string>)
    requires GoodNames(names) && GoodNames(others) && Dotted(names) == Dotted(others)
    ensures names == others
    decreases names
  {
    HeadOfDotted(names);
    HeadOfDotted(others);
    assert names[0] == others[0];
    if |names| > 1 {
      DottedInjective(names[1..], others[1..]);
    }
    assert names == [names[0]] + names[1..] && others == [others[0]] + others[1..];
  }

  lemma {:induction false} CarriersAreGood(errors: seq<ValidationError>, names: seq<string>, messages: seq<string>)
    requires WellNamed(errors) && Carries(errors, names, messages)
    ensures GoodNames(names)
    decreases names
  {
    var i :| 0 <= i < |errors| && errors[i].property == names[0]
             && (if |names| == 1 then errors[i].constraints == Some(messages)
                 else Carries(errors[i].children, names[1..], messages));
    if |names| > 1 {
      CarriersAreGood(errors[i].children, names[1..], messages);
    }
    assert names == [names[0]] + names[1..];
  }

  // ---------- Keys and carriers ----------

  lemma JoinDotted(parent: string, name: string, rest: seq<string>)
    requires name != "" && rest != []
    ensures Join(Join(parent, name), Dotted(rest)) == Join(parent, Dotted([name] + rest))
  {
    assert ([name] + rest)[1..] == rest;
    assert Dotted([name] + rest) == name + "." + Dotted(rest);
    assert parent + "." + name + "." + Dotted(rest) == parent + "." + (name + "." + Dotted(rest));
  }

  lemma JoinCancels(parent: string, a: string, b: string)
    requires Join(parent, a) == Join(parent, b)
    ensures a == b
  {
    if parent != "" {
      assert (parent + "." + a)[|parent| + 1..] == a && (parent + "." + b)[|parent| + 1..] == b;
    }
  }

  lemma CarriesBelow(errors: seq<ValidationError>, i: nat, names: seq<string>, messages: seq<string>)
    requires i < |errors| && Carries(errors[i].children, names, messages)
    ensures Carries(errors, [errors[i].property] + names, messages)
  {
    assert ([errors[i].property] + names)[1..] == names;
  }

  lemma CarriesMore(errors: seq<ValidationError>, names: seq<string>, messages: seq<string>)
    requires errors != [] && Carries(errors[..|errors| - 1], names, messages)
    ensures Carries(errors, names, messages)
  {
    var front := errors[..|errors| - 1];
    var i :| 0 <= i < |front| && front[i].property == names[0]
             && (if |names| == 1 then front[i].constraints == Some(messages)
                 else Carries(front[i].children, names[1..], messages));
    assert errors[i] == front[i];
  }

  lemma WellNamedFront(errors: seq<ValidationError>)
    requires WellNamed(errors) && errors != []
    ensures WellNamed(errors[..|errors| - 1])
    ensures GoodName(errors[|errors| - 1].property) && WellNamed(errors[|errors| - 1].children)
  {
  }

  lemma NamedFront(errors: seq<ValidationError>)
    requires Named(errors) && errors != []
    ensures Named(errors[..|errors| - 1])
    ensures errors[|errors| - 1].property != "" && Named(errors[|errors| - 1].children)
  {
  }

  lemma {:induction false} WellNamedIsNamed(errors: seq<ValidationError>)
    requires WellNamed(errors)
    ensures Named(errors)
    decreases errors
  {
    forall i | 0 <= i < |errors|
      ensures errors[i].property != "" && Named(errors[i].children)
    {
      assert GoodName(errors[i].property);
      WellNamedIsNamed(errors[i].children);
    }
  }

  /** Every entry stands for a node: its key is the node's path below `parent`. */
  lemma {:induction false} EntryIsCarried(errors: seq<ValidationError>, parent: string, entry: Entry)
    returns (names: seq<string>)
    requires Named(errors) && entry in Entries(errors, parent)
    ensures Carries(errors, names, entry.messages) && entry.key == Join(parent, Dotted(names))
    decreases errors, 0
  {
    hide Named, Carries, Dotted;
    var front, last := errors[..|errors| - 1], errors[|errors| - 1];
    NamedFront(errors);
    if entry in Entries(front, parent) {
      names := EntryIsCarried(front, parent, entry);
      CarriesMore(errors, names, entry.messages);
    } else {
      names := EntryIsCarriedBy(errors, parent, entry);
    }
  }

  lemma {:induction false} EntryIsCarriedBy(errors: seq<ValidationError>, parent: string, entry: Entry)
    returns (names: seq<string>)
    requires Named(errors) && errors != [] && entry in EntriesOf(errors[|errors| - 1], parent)
    ensures Carries(errors, names, entry.messages) && entry.key == Join(parent, Dotted(names))
    ensures names[0] == errors[|errors| - 1].property
    decreases errors[|errors| - 1], 1
  {
    var last := errors[|errors| - 1];
    var path := Join(parent, last.property);
    NamedFront(errors);
    hide Named, Entries, Join;
    if last.constraints.Some? && entry == Entry(path, last.constraints.value) {
      names := [last.property];
    } else {
      var rest := EntryIsCarried(last.children, path, entry);
      names := [last.property] + rest;
      CarriesBelow(errors, |errors| - 1, rest, entry.messages);
      JoinDotted(parent, last.property, rest);
    }
  }

  lemma {:induction false} EntriesOfIn(errors: seq<ValidationError>, parent: string, i: nat, entry: Entry)
    requires i < |errors| && entry in EntriesOf(errors[i], parent)
    ensures entry in Entries(errors, parent)
  {
    hide EntriesOf;
    if i < |errors| - 1 {
      EntriesOfIn(errors[..|errors| - 1], parent, i, entry);
    }
  }

  /** Every node that carries messages has its entry. */
  lemma {:induction false} CarriedIsEntry(errors: seq<ValidationError>, parent: string, names: seq<string>,
                                          messages: seq<string>)
    requires Named(errors) && Carries(errors, names, messages)
    ensures Entry(Join(parent, Dotted(names)), messages) in Entries(errors, parent)
    decreases names
  {
    var i :| 0 <= i < |errors| && errors[i].property == names[0]
             && (if |names| == 1 then errors[i].constraints == Some(messages)
                 else Carries(errors[i].children, names[1..], messages));
    var path := Join(parent, errors[i].property);
    assert errors[i].property != "" && Named(errors[i].children);
    hide Named, Carries, Entries;
    if |names| > 1 {
      CarriedIsEntry(errors[i].children, path, names[1..], messages);
      JoinDotted(parent, names[0], names[1..]);
      assert [names[0]] + names[1..] == names;
    }
    EntriesOfIn(errors, parent, i, Entry(Join(parent, Dotted(names)), messages));
  }

  // ---------- No entry overwrites another ----------

  predicate DistinctKeys(entries: seq<Entry>) {
    forall i, j | 0 <= i < j < |entries| :: entries[i].key != entries[j].key
  }

  lemma DistinctJoin(a: seq<Entry>, b: seq<Entry>)
    requires DistinctKeys(a) && DistinctKeys(b)
    requires forall x, y | x in a && y in b :: x.key != y.key
    ensures DistinctKeys(a + b)
  {
  }

  lemma {:induction false} KeysDiffer(errors: seq<ValidationError>, parent: string)
    requires WellNamed(errors)
    ensures DistinctKeys(Entries(errors, parent))
    decreases errors, 0
  {
    hide WellNamed, DistinctKeys, EntriesOf;
    if errors != [] {
      var front, last := errors[..|errors| - 1], errors[|errors| - 1];
      WellNamedFront(errors);
      KeysDiffer(front, parent);
      KeysDifferBelow(last, parent);
      forall x, y | x in Entries(front, parent) && y in EntriesOf(last, parent)
        ensures x.key != y.key
      {
        SiblingsDiffer(errors, parent, x, y);
      }
      DistinctJoin(Entries(front, parent), EntriesOf(last, parent));
    } else {
      assert Entries(errors, parent) == [];
      NoKeys();
    }
  }

  lemma NoKeys()
    ensures DistinctKeys([])
  {
  }

  /** What lies below different siblings has different paths. */
  lemma SiblingsDiffer(errors: seq<ValidationError>, parent: string, x: Entry, y: Entry)
    requires WellNamed(errors) && errors != []
    requires x in Entries(errors[..|errors| - 1], parent) && y in EntriesOf(errors[|errors| - 1], parent)
    ensures x.key != y.key
  {
    hide Entries, EntriesOf, Dotted, Join;
    var front := errors[..|errors| - 1];
    WellNamedFront(errors);
    WellNamedIsNamed(errors);
    WellNamedIsNamed(front);
    var a := EntryIsCarried(front, parent, x);
    var b := EntryIsCarriedBy(errors, parent, y);
    assert a[0] != errors[|errors| - 1].property;
    hide WellNamed;
    CarriersAreGood(front, a, x.messages);
    CarriersAreGood(errors, b, y.messages);
    hide Carries;
    if x.key == y.key {
      JoinCancels(parent, Dotted(a), Dotted(b));
      DottedInjective(a, b);
    }
  }

  /** A node's own path is shorter than any below it. */
  lemma {:induction false} KeysDifferBelow(error: ValidationError, parent: string)
    requires GoodName(error.property) && WellNamed(error.children)
    ensures DistinctKeys(EntriesOf(error, parent))
    decreases error, 1
  {
    var path := Join(parent, error.property);
    assert path != "";
    hide WellNamed, Entries, DistinctKeys;
    var below := Entries(error.children, path);
    KeysDiffer(error.children, path);
    WellNamedIsNamed(error.children);
    if error.constraints.Some? {
      var own := [Entry(path, error.constraints.value)];
      forall y | y in below
        ensures path != y.key
      {
        var names := EntryIsCarried(error.children, path, y);
      }
      OneKey(own[0]);
      DistinctJoin(own, below);
    } else {
      assert [] + below == below;
    }
  }

  lemma OneKey(entry: Entry)
    ensures DistinctKeys([entry])
  {
  }

  // ---------- The theorem ----------

  lemma {:induction false} WrittenHolds(entries: seq<Entry>)
    requires DistinctKeys(entries)
    ensures Holds(Written(entries), entries)
  {
    if entries != [] {
      var front, last := entries[..|entries| - 1], entries[|entries| - 1];
      WrittenHolds(front);
      assert entries == front + [last];
      HoldsMore(Written(front), front, last);
    }
  }

  ghost predicate Holds(record: Record, entries: seq<Entry>) {
    && (forall e | e in entries :: e.key in record && record[e.key] == e.messages)
    && (forall key | key in record :: Entry(key, record[key]) in entries)
    && |record| == |entries|
  }

  lemma HoldsMore(record: Record, entries: seq<Entry>, e: Entry)
    requires Holds(record, entries) && forall x | x in entries :: x.key != e.key
    ensures Holds(record[e.key := e.messages], entries + [e])
  {
    var more, all := record[e.key := e.messages], entries + [e];
    forall key | key in more
      ensures Entry(key, more[key]) in all
    {
      if key != e.key {
        assert Entry(key, record[key]) in entries;
      }
    }
    assert e.key !in record;
  }

  /** How many nodes carry messages. */
  function Constrained(errors: seq<ValidationError>): nat
    decreases errors
  {
    if errors == [] then 0
    else
      var last := errors[|errors| - 1];
      Constrained(errors[..|errors| - 1]) + (if last.constraints.Some? then 1 else 0) + Constrained(last.children)
  }

  lemma {:induction false} EntryPerNode(errors: seq<ValidationError>, parent: string)
    ensures |Entries(errors, parent)| == Constrained(errors)
    decreases errors
  {
    if errors != [] {
      var last := errors[|errors| - 1];
      EntryPerNode(errors[..|errors| - 1], parent);
      EntryPerNode(last.children, Join(parent, last.property));
    }
  }

  /** Every node that carries messages has its own entry under its own path, and nothing else has. */
  ghost predicate Lossless(record: Record, errors: seq<ValidationError>) {
    && (forall names, messages | Carries(errors, names, messages) ::
          Dotted(names) in record && record[Dotted(names)] == messages)
    && (forall key | key in record :: StandsFor(key, record[key], errors))
    && |record| == Constrained(errors)
  }

  ghost predicate StandsFor(key: string, messages: seq<string>, errors: seq<ValidationError>) {
    exists names :: Carries(errors, names, messages) && key == Dotted(names)
  }

  lemma {:induction false} FewerKeysThanEntries(entries: seq<Entry>)
    ensures |Written(entries)| <= |entries|
    ensures |Written(entries)| == |entries| ==> DistinctKeys(entries)
  {
    if entries != [] {
      var front, last := entries[..|entries| - 1], entries[|entries| - 1];
      FewerKeysThanEntries(front);
      if |Written(entries)| == |entries| {
        assert last.key !in Written(front) && |Written(front)| == |front|;
        NewKeyStaysDistinct(front, last);
        assert entries == front + [last];
      }
    } else {
      NoKeys();
    }
    hide DistinctKeys;
  }

  lemma NewKeyStaysDistinct(entries: seq<Entry>, e: Entry)
    requires DistinctKeys(entries) && e.key !in Written(entries)
    ensures DistinctKeys(entries + [e])
  {
    WrittenHolds(entries);
    hide Written;
  }

  /** Whatever the names: there are as many keys as nodes with messages if and only if no two
      entries have the same key. */
  lemma NothingOverwrittenIff(errors: seq<ValidationError>, parent: string)
    ensures |Written(Entries(errors, parent))| == Constrained(errors) <==> DistinctKeys(Entries(errors, parent))
  {
    var entries := Entries(errors, parent);
    EntryPerNode(errors, parent);
    FewerKeysThanEntries(entries);
    hide Entries, Written;
    if DistinctKeys(entries) {
      WrittenHolds(entries);
    }
  }

  /** As long as no name is empty, flattening loses nothing if and only if no two nodes that carry
      messages have the same dotted path. */
  lemma LosslessIff(errors: seq<ValidationError>)
    requires Named(errors)
    ensures Lossless(Written(Entries(errors, "")), errors) <==> DistinctKeys(Entries(errors, ""))
  {
    hide Named, Carries, Entries, Dotted, Written, Constrained, DistinctKeys;
    var entries := Entries(errors, "");
    NothingOverwrittenIff(errors, "");
    if DistinctKeys(entries) {
      WrittenHolds(entries);
      forall names, messages | Carries(errors, names, messages)
        ensures Dotted(names) in Written(entries) && Written(entries)[Dotted(names)] == messages
      {
        CarriedIsEntry(errors, "", names, messages);
      }
      forall key | key in Written(entries)
        ensures StandsFor(key, Written(entries)[key], errors)
      {
        var names := EntryIsCarried(errors, "", Entry(key, Written(entries)[key]));
      }
    }
  }

  /** With names that are not dotted either, and differ among siblings, it loses nothing: the keys
      are the dotted paths of the nodes that carry messages, each mapped to its node's messages. */
  lemma FlatteningIsLossless(errors: seq<ValidationError>)
    requires WellNamed(errors)
    ensures Lossless(Written(Entries(errors, "")), errors)
  {
    hide WellNamed, Named, Entries, Written, Lossless, DistinctKeys;
    WellNamedIsNamed(errors);
    KeysDiffer(errors, "");
    LosslessIff(errors);
  }

  /** Two nodes of one path, the first by a dotted name. */
  function Colliding(first: seq<string>, second: seq<string>): seq<ValidationError> {
    [ValidationError("a.b", Some(first), []), ValidationError("a", None, [ValidationError("b", Some(second), [])])]
  }

  lemma CollidingEntries(first: seq<string>, second: seq<string>)
    ensures Entries(Colliding(first, second), "") == [Entry("a.b", first), Entry("a.b", second)]
  {
    var errors := Colliding(first, second);
    var leaf := errors[1].children[0];
    assert "a" + "." + "b" == "a.b";
    EntriesAppend([leaf], 0, "a");
    EntriesAppend(errors, 0, "");
    EntriesAppend(errors, 1, "");
    assert [leaf][..1] == [leaf] && errors[..2] == errors;
    assert EntriesOf(leaf, "a") == [Entry("a.b", second)] && EntriesOf(errors[0], "") == [Entry("a.b", first)];
  }

  lemma TwoOfOneKey(key: string, first: seq<string>, second: seq<string>)
    ensures Written([Entry(key, first), Entry(key, second)]) == map[key := second]
  {
    var entries := [Entry(key, first), Entry(key, second)];
    assert entries[..1] == [Entry(key, first)] && [Entry(key, first)][..0] == [];
    assert Written(entries[..1]) == map[key := first];
  }

  /** With a dotted name two nodes can share a path, and the later one overwrites the earlier. */
  lemma DottedNamesCollide(first: seq<string>, second: seq<string>)
    ensures var record := Written(Entries(Colliding(first, second), ""));
            record == map["a.b" := second] && !Lossless(record, Colliding(first, second))
  {
    CollidingEntries(first, second);
    TwoOfOneKey("a.b", first, second);
    var record := map["a.b" := second];
    assert |record| == 1;
    EntryPerNode(Colliding(first, second), "");
  }
}
