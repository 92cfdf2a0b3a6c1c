/** SQL's three-valued logic. NULL is `None`; a row is kept only by `True`. */
module SqlLogic {
  import opened Options

  datatype Tri = True | False | Unknown

  function Of(b: bool): Tri { if b then True else False }

  function Not(a: Tri): Tri {
    match a case True => False case False => True case Unknown => Unknown
  }

  function And(a: Tri, b: Tri): Tri {
    if a == False || b == False then False
    else if a == Unknown || b == Unknown then Unknown
    else True
  }

  function Or(a: Tri, b: Tri): Tri {
    if a == True || b == True then True
    else if a == Unknown || b == Unknown then Unknown
    else False
  }

  /** `a = b` */
  function Eq<T(==)>(a: Option<T>, b: Option<T>): Tri {
    if a.None? || b.None? then Unknown else Of(a.value == b.value)
  }

  /** `a IN (items)` for items without NULL */
  function In<T(==)>(a: Option<T>, items: seq<T>): Tri {
    if a.None? then Unknown else Of(a.value in items)
  }

  /** `a <= b` */
  function AtMost(a: Option<int>, b: Option<int>): Tri {
    if a.None? || b.None? then Unknown else Of(a.value <= b.value)
  }

  function AnyOf(items: seq<Tri>): Tri {
    if items == [] then False else Or(AnyOf(items[..|items| - 1]), items[|items| - 1])
  }

  function AllOf(items: seq<Tri>): Tri {
    if items == [] then True else And(AllOf(items[..|items| - 1]), items[|items| - 1])
  }

  lemma {:induction false} AnyOfTrue(items: seq<Tri>)
    ensures AnyOf(items) == True <==> exists i :: 0 <= i < |items| && items[i] == True
    ensures AnyOf(items) == False <==> forall i :: 0 <= i < |items| ==> items[i] == False
  {
    if items != [] {
      var front, n := items[..|items| - 1], |items| - 1;
      AnyOfTrue(front);
      if AnyOf(items) == True {
        if items[n] != True {
          var i :| 0 <= i < |front| && front[i] == True;
          assert items[i] == True;
        }
      }
      if exists i :: 0 <= i < |items| && items[i] == True {
        var i :| 0 <= i < |items| && items[i] == True;
        if i < n { assert front[i] == True; }
      }
      if AnyOf(items) == False {
        forall i | 0 <= i < |items| ensures items[i] == False { if i < n { assert front[i] == False; } }
      }
    }
  }
}
