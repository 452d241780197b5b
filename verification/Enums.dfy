/** Enumeration classes: iterating an instance yields the value of every
    attribute whose name does not start with an underscore. */
module Enums {
  import opened Wrappers

  /** One class attribute, as the attribute listing reports it. */
  datatype Attr = Attr(name: string, value: Value)

  /** Names that do not start with `_` are the declared constants; the rest
      are Python's own machinery. */
  predicate IsPublic(name: string) {
    |name| == 0 || name[0] != '_'
  }

  /** The values iteration yields, in listing order. */
  function EnumValues(attrs: seq<Attr>): (r: seq<Value>)
    ensures |r| <= |attrs|
    ensures |r| == |attrs| <==> forall i :: 0 <= i < |attrs| ==> IsPublic(attrs[i].name)
    ensures r == [] <==> forall i :: 0 <= i < |attrs| ==> !IsPublic(attrs[i].name)
  {
    if |attrs| == 0 then []
    else
      assert forall i :: 1 <= i < |attrs| ==> attrs[i] == attrs[1..][i - 1];
      (if IsPublic(attrs[0].name) then [attrs[0].value] else []) + EnumValues(attrs[1..])
  }

  /** A value is yielded exactly when some public attribute holds it. */
  lemma {:induction false} EnumValuesMembers(attrs: seq<Attr>, v: Value)
    ensures v in EnumValues(attrs) <==> exists i :: 0 <= i < |attrs| && IsPublic(attrs[i].name) && attrs[i].value == v
  {
    if |attrs| > 0 {
      EnumValuesMembers(attrs[1..], v);
      if v in EnumValues(attrs[1..]) {
        var i :| 0 <= i < |attrs[1..]| && IsPublic(attrs[1..][i].name) && attrs[1..][i].value == v;
        assert attrs[i + 1] == attrs[1..][i];
      }
      if exists i :: 0 <= i < |attrs| && IsPublic(attrs[i].name) && attrs[i].value == v {
        var i :| 0 <= i < |attrs| && IsPublic(attrs[i].name) && attrs[i].value == v;
        if i > 0 {
          assert attrs[1..][i - 1] == attrs[i];
        }
      }
    }
  }

  /** The enumeration test: a class declaring `a = 10`, `b = 20` and
      `CC = "2000"`, next to the underscore attributes every class has,
      yields exactly those three values. */
  lemma FooExample()
    ensures var foo := [Attr("CC", Str("2000")), Attr("__doc__", Str("")), Attr("__module__", Str("tests")),
                        Attr("a", Int(10)), Attr("b", Int(20))];
            (set v | v in EnumValues(foo)) == {Int(10), Int(20), Str("2000")}
  {
    var foo := [Attr("CC", Str("2000")), Attr("__doc__", Str("")), Attr("__module__", Str("tests")),
                Attr("a", Int(10)), Attr("b", Int(20))];
    assert foo[5..] == [] && EnumValues(foo[5..]) == [];
    assert foo[4..][1..] == foo[5..] && EnumValues(foo[4..]) == [Int(20)] + [];
    assert foo[3..][1..] == foo[4..] && EnumValues(foo[3..]) == [Int(10)] + [Int(20)];
    assert foo[2..][1..] == foo[3..] && EnumValues(foo[2..]) == [] + [Int(10), Int(20)];
    assert foo[1..][1..] == foo[2..] && EnumValues(foo[1..]) == [] + [Int(10), Int(20)];
    assert EnumValues(foo) == [Str("2000")] + [Int(10), Int(20)];
  }
}
