/** The tree of asset classes (types/asset_class.go). */
module AssetClasses {

  /** The classes of the enum, which the tree holds. */
  const CLASSES: set<string> := {
    "unknown", "cash", "security", "equity", "stock", "etf", "mutual_fund", "fixed_income", "derivative", "option", "future"
  }

  function Parent(e: string): string {
    if e in {"cash", "security"} then "unknown"
    else if e in {"equity", "fixed_income", "derivative"} then "security"
    else if e in {"stock", "etf", "mutual_fund"} then "equity"
    else if e in {"option", "future"} then "derivative"
    else ""
  }

  function Depth(e: string): nat {
    if e == "" then 0
    else if e in {"cash", "security"} then 2
    else if e in {"equity", "fixed_income", "derivative"} then 3
    else if e in {"stock", "etf", "mutual_fund", "option", "future"} then 4
    else 1
  }

  /** e is o or lies below it. */
  predicate Under(e: string, o: string)
    decreases Depth(e)
  {
    e != "" && (e == o || Under(Parent(e), o))
  }

  predicate Disjoint(e: string, o: string) {
    !Under(e, o) && !Under(o, e)
  }

  lemma UnderSelf(e: string)
    ensures Under(e, e) <==> e != ""
    ensures !Under(e, "")
    decreases Depth(e)
  {
    if e != "" {
      UnderSelf(Parent(e));
    }
  }

  /** Classes above one class lie on one line. */
  lemma {:induction false} AncestorsInLine(c: string, e: string, o: string)
    requires Under(c, e) && Under(c, o)
    ensures Under(e, o) || Under(o, e)
    decreases Depth(c)
  {
    if c != e && c != o {
      AncestorsInLine(Parent(c), e, o);
    }
  }

  /** What lies below what. */
  lemma TreeIs(e: string, o: string)
    requires e in CLASSES && o in CLASSES
    ensures Under(e, o) <==> match o
      case "unknown" => true
      case "security" => e != "unknown" && e != "cash"
      case "equity" => e in {"equity", "stock", "etf", "mutual_fund"}
      case "derivative" => e in {"derivative", "option", "future"}
      case _ => e == o
  {
    UnderUnknown(e);
    UnderSelf(e);
    UnderParents(e, o);
  }

  lemma UnderStep(e: string, o: string)
    ensures Under(e, o) <==> e != "" && (e == o || Under(Parent(e), o))
  {
  }

  lemma UnderParents(e: string, o: string)
    requires e in CLASSES && o in CLASSES
    ensures Under(e, o) <==> e == o || Parent(e) == o || Parent(Parent(e)) == o || Parent(Parent(Parent(e))) == o
  {
    UnderStep(e, o);
    UnderStep(Parent(e), o);
    UnderStep(Parent(Parent(e)), o);
    UnderStep(Parent(Parent(Parent(e))), o);
    assert Parent(Parent(Parent(Parent(e)))) == "";
  }

  /** Two classes are disjoint exactly where no class lies below both. */
  lemma DisjointShareNone(e: string, o: string)
    ensures Disjoint(e, o) <==> forall c :: !(Under(c, e) && Under(c, o))
  {
    UnderSelf(e);
    UnderSelf(o);
    forall c | Under(c, e) && Under(c, o)
      ensures !Disjoint(e, o)
    {
      AncestorsInLine(c, e, o);
    }
    if Under(e, o) {
      assert Under(e, e) || e == "";
    }
    if Under(o, e) {
      assert Under(o, o) || o == "";
    }
  }

  /** The unknown class overlaps exactly the classes of the tree. */
  lemma UnknownOverlaps(e: string)
    ensures !Disjoint("unknown", e) <==> e in CLASSES
  {
    UnderSelf(e);
    assert Parent("unknown") == "" && Under("unknown", "unknown");
    UnderUnknown(e);
  }

  lemma ParentKept(e: string)
    requires e != "" && e != "unknown"
    ensures Parent(e) in CLASSES <==> e in CLASSES
    ensures Depth(Parent(e)) < Depth(e)
  {
  }

  /** The classes of the tree are those below its root. */
  lemma {:induction false} UnderUnknown(e: string)
    ensures Under(e, "unknown") <==> e in CLASSES
    decreases Depth(e)
  {
    if e != "" && e != "unknown" {
      ParentKept(e);
      UnderUnknown(Parent(e));
      assert Under(e, "unknown") <==> Under(Parent(e), "unknown");
    }
  }
}
