/** `cn(...classes)`: the truthy class names, joined by single spaces. */
module Cn {
  import opened Text
  import opened Seqs

  /** One argument: a string, or `undefined`, `false` or `null`. */
  datatype ClassArg = Name(s: string) | Undefined | False | Null

  /** `Boolean(arg)`: only a non-empty string is truthy. */
  predicate Truthy(a: ClassArg) {
    a.Name? && a.s != []
  }

  function Names(args: seq<ClassArg>): (r: seq<string>)
    ensures |r| <= |args|
    ensures forall i :: 0 <= i < |r| ==> r[i] != []
  {
    if args == [] then []
    else (if Truthy(args[0]) then [args[0].s] else []) + Names(args[1..])
  }

  function Cn(args: seq<ClassArg>): (r: string)
  {
    Join(Names(args), " ")
  }

  lemma {:induction false} JoinAppend(a: seq<string>, b: seq<string>, sep: string)
    requires a != [] && b != []
    ensures Join(a + b, sep) == Join(a, sep) + sep + Join(b, sep)
  {
    if |a| > 1 {
      assert (a + b)[1..] == a[1..] + b;
      JoinAppend(a[1..], b, sep);
    } else {
      assert (a + b)[1..] == b;
    }
  }

  lemma {:induction false} NamesAppend(a: seq<ClassArg>, b: seq<ClassArg>)
    ensures Names(a + b) == Names(a) + Names(b)
  {
    if a == [] {
      assert a + b == b;
    } else {
      assert (a + b)[1..] == a[1..] + b;
      NamesAppend(a[1..], b);
    }
  }

  /** The empty result means no truthy argument. */
  lemma {:induction false} CnEmptyIffNoTruthy(args: seq<ClassArg>)
    ensures Cn(args) == [] <==> forall i :: 0 <= i < |args| ==> !Truthy(args[i])
  {
    if args != [] {
      CnEmptyIffNoTruthy(args[1..]);
      var rest := Names(args[1..]);
      if Truthy(args[0]) {
        if rest == [] {
          assert Cn(args) == args[0].s;
        } else {
          JoinAppend([args[0].s], rest, " ");
        }
      }
      assert forall i :: 1 <= i < |args| ==> args[i] == args[1..][i - 1];
    }
  }

  /** Adding arguments appends their names, with one space between two
      non-empty parts and none before or after an empty one. */
  lemma CnAppend(a: seq<ClassArg>, b: seq<ClassArg>)
    ensures Cn(a + b) == if Cn(a) == [] then Cn(b) else if Cn(b) == [] then Cn(a) else Cn(a) + " " + Cn(b)
  {
    NamesAppend(a, b);
    var na, nb := Names(a), Names(b);
    if na == [] {
      assert na + nb == nb;
    } else if nb == [] {
      assert na + nb == na;
    } else {
      JoinAppend(na, nb, " ");
      assert Join(na, " ") != [] by { JoinNonEmpty(na); }
      assert Join(nb, " ") != [] by { JoinNonEmpty(nb); }
    }
  }

  lemma {:induction false} JoinNonEmpty(parts: seq<string>)
    requires parts != [] && parts[0] != []
    ensures Join(parts, " ") != []
  {
  }

  /** A single truthy argument comes back unchanged; a falsy one gives ''. */
  lemma CnSingle(a: ClassArg)
    ensures Truthy(a) ==> Cn([a]) == a.s
    ensures !Truthy(a) ==> Cn([a]) == []
  {
    assert [a][1..] == [];
  }
}
