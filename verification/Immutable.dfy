/** Objects that become read-only once the immutable mixin's initialiser has
    run: attributes set before it keep their values, and every later
    attribute write raises ImmutableException. */
module Immutable {
  import opened Wrappers

  /** An object's attributes and whether the mixin's initialiser has run. */
  datatype Obj = Obj(attrs: map<string, Value>, frozen: bool)

  /** The error every write to a frozen object raises. */
  datatype ImmutableException = ImmutableException

  /** A fresh instance, before any initialiser has run. */
  const Blank: Obj := Obj(map[], false)

  /** Attribute assignment: refused once frozen, otherwise it binds the key
      and leaves every other attribute alone. */
  function SetAttr(o: Obj, key: string, v: Value): (r: Result<Obj, ImmutableException>)
    ensures r.Failure? <==> o.frozen
    ensures r.Success? ==>
              && !r.value.frozen
              && key in r.value.attrs && r.value.attrs[key] == v
              && r.value.attrs.Keys == o.attrs.Keys + {key}
              && (forall k :: k != key && k in o.attrs ==> r.value.attrs[k] == o.attrs[k])
  {
    if o.frozen then Failure(ImmutableException)
    else Success(o.(attrs := o.attrs[key := v]))
  }

  /** The mixin's initialiser: it freezes the object and keeps its
      attributes. */
  function Freeze(o: Obj): (r: Obj)
    ensures r.frozen && r.attrs == o.attrs
  {
    o.(frozen := true)
  }

  /** Attribute lookup. */
  function GetAttr(o: Obj, key: string): Option<Value> {
    if key in o.attrs then Some(o.attrs[key]) else None
  }

  /** A subclass constructor: assign `pre` in order, then call the mixin's
      initialiser. */
  function Construct(pre: seq<(string, Value)>): Obj {
    Freeze(AssignAll(Blank, pre))
  }

  /** Assign a list of attributes to an unfrozen object. */
  function AssignAll(o: Obj, pre: seq<(string, Value)>): (r: Obj)
    requires !o.frozen
    ensures !r.frozen
    decreases |pre|
  {
    if |pre| == 0 then o
    else AssignAll(SetAttr(o, pre[0].0, pre[0].1).value, pre[1..])
  }

  /** The value the last assignment of `key` in `pre` gave it, if any. */
  function LastAssigned(pre: seq<(string, Value)>, key: string): Option<Value> {
    if |pre| == 0 then None
    else if pre[|pre| - 1].0 == key then Some(pre[|pre| - 1].1)
    else LastAssigned(pre[..|pre| - 1], key)
  }

  lemma {:induction false} AssignAllLastWins(o: Obj, pre: seq<(string, Value)>, key: string)
    requires !o.frozen
    ensures GetAttr(AssignAll(o, pre), key) ==
            (if LastAssigned(pre, key).Some? then LastAssigned(pre, key) else GetAttr(o, key))
    decreases |pre|
  {
    if |pre| > 0 {
      var o' := SetAttr(o, pre[0].0, pre[0].1).value;
      AssignAllLastWins(o', pre[1..], key);
      LastAssignedFront(pre, key);
    }
  }

  /** Scanning from the back agrees with peeling off the front. */
  lemma {:induction false} LastAssignedFront(pre: seq<(string, Value)>, key: string)
    requires |pre| > 0
    ensures LastAssigned(pre, key) ==
            (if LastAssigned(pre[1..], key).Some? then LastAssigned(pre[1..], key)
             else if pre[0].0 == key then Some(pre[0].1) else None)
    decreases |pre|
  {
    if |pre| > 1 {
      assert pre[1..][..|pre[1..]| - 1] == pre[..|pre| - 1][1..];
      LastAssignedFront(pre[..|pre| - 1], key);
    }
  }

  /** A constructed object holds, for each attribute, the value its last
      assignment before the initialiser gave it, and nothing else. */
  lemma ConstructKeepsAssignments(pre: seq<(string, Value)>, key: string)
    ensures GetAttr(Construct(pre), key) == LastAssigned(pre, key)
    ensures Construct(pre).frozen
  {
    AssignAllLastWins(Blank, pre, key);
  }

  /** Every attribute write after construction raises ImmutableException. */
  lemma ConstructedRejectsWrites(pre: seq<(string, Value)>, key: string, v: Value)
    ensures SetAttr(Construct(pre), key, v) == Failure(ImmutableException)
  {
  }

  /** The two mixin test cases: a bare instance refuses `test`, and a
      subclass that set `test` before the initialiser keeps it and refuses
      `abc`. */
  lemma MixinExamples()
    ensures SetAttr(Construct([]), "test", Str("test")).Failure?
    ensures SetAttr(Construct([("test", Str("test"))]), "abc", Str("test")).Failure?
    ensures GetAttr(Construct([("test", Str("test"))]), "test") == Some(Str("test"))
  {
    ConstructKeepsAssignments([("test", Str("test"))], "test");
  }
}
