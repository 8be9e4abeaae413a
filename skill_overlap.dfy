/** The skill-overlap test both upload routers use to pair job descriptions
    with candidates: `len(set(a).intersection(set(b))) >= min_overlap`,
    where `a` and `b` are whatever the stored records hold. */
module SkillOverlap {
  import opened Values
  import opened Filtering

  /** `set(v)`: the elements of a list (all of which must be hashable), the
      one-character strings of a string, the keys of a dict; anything else
      is not iterable and raises a TypeError. */
  function SkillItems(v: Value): Option<set<Value>>
  {
    match v
    case List(items) =>
      if forall k :: 0 <= k < |items| ==> Hashable(items[k]) then Some(set x | x in items) else None
    case Str(s) => Some(set c | c in s :: Str([c]))
    case Obj(fields) => Some(set k | k in fields :: Str(k))
    case _ => None
  }

  /** `has_skill_overlap(a, b, min_overlap)`. */
  function HasSkillOverlap(a: Value, b: Value, minOverlap: int): Result<bool, string>
  {
    match (SkillItems(a), SkillItems(b))
    case (Some(sa), Some(sb)) => Ok(|sa * sb| >= minOverlap)
    case _ => Err("TypeError: object is not iterable")
  }

  /** With `min_overlap=1`, as both routers call it, two skill lists
      overlap exactly when some skill is in both. */
  lemma OverlapOneIff(a: Value, b: Value)
    requires SkillItems(a).Some? && SkillItems(b).Some?
    ensures HasSkillOverlap(a, b, 1).Ok?
    ensures HasSkillOverlap(a, b, 1).value <==> exists x :: x in SkillItems(a).value && x in SkillItems(b).value
  {
    var both := SkillItems(a).value * SkillItems(b).value;
    if exists x :: x in SkillItems(a).value && x in SkillItems(b).value {
      var x :| x in SkillItems(a).value && x in SkillItems(b).value;
      assert x in both;
    } else {
      assert both == {};
    }
  }

  /** For lists of skill names, overlap means a name in common. */
  lemma OverlapOneLists(a: seq<Value>, b: seq<Value>)
    requires forall k :: 0 <= k < |a| ==> Hashable(a[k])
    requires forall k :: 0 <= k < |b| ==> Hashable(b[k])
    ensures HasSkillOverlap(List(a), List(b), 1) == Ok(exists x :: x in a && x in b)
  {
    OverlapOneIff(List(a), List(b));
    assert forall x :: x in SkillItems(List(a)).value <==> x in a;
    assert forall x :: x in SkillItems(List(b)).value <==> x in b;
  }

  /** The test does not depend on which side is the job description. */
  lemma OverlapSymmetric(a: Value, b: Value, minOverlap: int)
    ensures HasSkillOverlap(a, b, minOverlap) == HasSkillOverlap(b, a, minOverlap)
  {
    if SkillItems(a).Some? && SkillItems(b).Some? {
      assert SkillItems(a).value * SkillItems(b).value == SkillItems(b).value * SkillItems(a).value;
    }
  }

  /** `set([])` is the empty set. */
  lemma EmptyListItems()
    ensures SkillItems(List([])) == Some({})
  {
    var none: seq<Value> := [];
    var items := set x | x in none;
    assert forall x :: x in items ==> x in none;
    assert items == {};
  }

  /** A record without the skill field is read as an empty list and
      matches nothing. */
  lemma MissingSkillsNeverMatch(d: Record, field: string, other: Value)
    requires field !in d && SkillItems(other).Some?
    ensures HasSkillOverlap(Get(d, field, List([])), other, 1) == Ok(false)
    ensures HasSkillOverlap(other, Get(d, field, List([])), 1) == Ok(false)
  {
    assert Get(d, field, List([])) == List([]);
    EmptyListItems();
    var theirs := SkillItems(other).value;
    assert {} * theirs == {} && theirs * {} == {};
  }

  /** The test a filter applies to one element: its skill field (an empty
      list when missing) against `skills`. */
  function OverlapsWith<T>(x: T, dataOf: T -> Record, field: string, skills: Value): Result<bool, string>
  {
    HasSkillOverlap(Get(dataOf(x), field, List([])), skills, 1)
  }

  /** The routers call the test with the filter's `skills` first; the
      order does not matter. */
  lemma OverlapsWithSwapped<T>(x: T, dataOf: T -> Record, field: string, skills: Value)
    ensures OverlapsWith(x, dataOf, field, skills) == HasSkillOverlap(skills, Get(dataOf(x), field, List([])), 1)
  {
    OverlapSymmetric(skills, Get(dataOf(x), field, List([])), 1);
  }

  /** That test as a function value. */
  function Overlaps<T>(dataOf: T -> Record, field: string, skills: Value): T -> Result<bool, string>
  {
    x => OverlapsWith(x, dataOf, field, skills)
  }

  /** The elements of `xs` that share a skill with `skills`, in order, as
      the routers' filter loops collect them; the first element the test
      cannot handle raises. */
  function FilterOverlapping<T>(xs: seq<T>, dataOf: T -> Record, field: string, skills: Value): Result<seq<T>, string>
  {
    Filter(xs, Overlaps(dataOf, field, skills))
  }
}
