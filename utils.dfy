/**
 * `cn`, the class-name helper: keeps the truthy arguments and joins them with
 * single spaces, so that `cn("a", cond && "b")` is "a b" or "a".
 */
module ClassNames {
  import opened Seqs

  /** An argument of `cn`: a string, a boolean, `undefined` or `null`. */
  datatype ClassValue = Str(s: string) | Bool(b: bool) | Undefined | Null

  /** JavaScript truthiness: a non-empty string or `true`. */
  predicate Truthy(v: ClassValue) {
    match v
    case Str(s) => s != ""
    case Bool(b) => b
    case _ => false
  }

  /** The text `join` writes for an argument. */
  function Stringify(v: ClassValue): string {
    match v
    case Str(s) => s
    case Bool(b) => if b then "true" else "false"
    case _ => ""
  }

  /** `Array.prototype.join(sep)` over strings. */
  function Join(parts: seq<string>, sep: string): string {
    if parts == [] then ""
    else if |parts| == 1 then parts[0]
    else parts[0] + sep + Join(parts[1..], sep)
  }

  /** `cn(...classes)`: `classes.filter(Boolean).join(" ")`. */
  function Cn(classes: seq<ClassValue>): string {
    Join(Map(Filter(classes, Truthy), Stringify), " ")
  }

  /** `String.prototype.split(" ")`: the pieces between single spaces. */
  function Split(s: string): (r: seq<string>)
    ensures |r| >= 1
  {
    if s == [] then [""]
    else if s[0] == ' ' then [""] + Split(s[1..])
    else
      var rest := Split(s[1..]);
      [[s[0]] + rest[0]] + rest[1..]
  }

  function SpaceCount(s: string): nat {
    if s == [] then 0 else (if s[0] == ' ' then 1 else 0) + SpaceCount(s[1..])
  }

  /** A string has one piece more than it has spaces. */
  lemma {:induction false} SplitCount(s: string)
    ensures |Split(s)| == SpaceCount(s) + 1
  {
    if s != [] {
      SplitCount(s[1..]);
    }
  }

  /** Splitting stops at the first space: a space-free head is the first piece. */
  lemma {:induction false} SplitHead(a: string, rest: string)
    requires ' ' !in a
    ensures Split(a + " " + rest) == [a] + Split(rest)
  {
    if a == [] {
      assert a + " " + rest == [' '] + rest;
      assert (a + " " + rest)[1..] == rest;
    } else {
      assert (a + " " + rest)[1..] == a[1..] + " " + rest;
      SplitHead(a[1..], rest);
      assert [a[0]] + a[1..] == a;
    }
  }

  /** A space-free string is one piece. */
  lemma {:induction false} SplitWhole(a: string)
    requires ' ' !in a
    ensures Split(a) == [a]
  {
    if a != [] {
      SplitWhole(a[1..]);
      assert [a[0]] + a[1..] == a;
    }
  }

  /** Joining space-free strings with spaces and splitting on spaces gives them back. */
  lemma {:induction false} SplitJoin(parts: seq<string>)
    requires |parts| >= 1
    requires forall i :: 0 <= i < |parts| ==> ' ' !in parts[i]
    ensures Split(Join(parts, " ")) == parts
  {
    if |parts| == 1 {
      SplitWhole(parts[0]);
    } else {
      SplitJoin(parts[1..]);
      SplitHead(parts[0], Join(parts[1..], " "));
    }
  }

  /** The arguments `cn` keeps, as the text it writes for them. */
  function Kept(classes: seq<ClassValue>): seq<string> {
    Map(Filter(classes, Truthy), Stringify)
  }

  /**
   * When no kept argument contains a space, `cn`'s result splits back into
   * exactly the kept arguments in their order, and it holds one space fewer
   * than there are kept arguments.
   */
  lemma CnRoundTrip(classes: seq<ClassValue>)
    requires forall i :: 0 <= i < |classes| ==> ' ' !in Stringify(classes[i])
    requires Kept(classes) != []
    ensures Split(Cn(classes)) == Kept(classes)
    ensures SpaceCount(Cn(classes)) == |Kept(classes)| - 1
  {
    var kept := Filter(classes, Truthy);
    forall i | 0 <= i < |kept| ensures ' ' !in Stringify(kept[i]) {
      FilterMembers(classes, Truthy, kept[i]);
    }
    SplitJoin(Kept(classes));
    SplitCount(Cn(classes));
  }

  /** A falsy argument, wherever it stands, changes nothing. */
  lemma CnDropsFalsy(before: seq<ClassValue>, v: ClassValue, after: seq<ClassValue>)
    requires !Truthy(v)
    ensures Cn(before + [v] + after) == Cn(before + after)
  {
    FilterAppend(before + [v], after, Truthy);
    FilterAppend(before, [v], Truthy);
    FilterAppend(before, after, Truthy);
    assert Filter([v], Truthy) == [];
    assert Filter(before + [v] + after, Truthy) == Filter(before + after, Truthy);
  }

  /** With no truthy argument the result is empty. */
  lemma CnAllFalsy(classes: seq<ClassValue>)
    requires forall i :: 0 <= i < |classes| ==> !Truthy(classes[i])
    ensures Cn(classes) == ""
  {
    var kept := Filter(classes, Truthy);
    if kept != [] {
      FilterMembers(classes, Truthy, kept[0]);
    }
  }

  /** One truthy string among falsy arguments comes back unchanged. */
  lemma CnSingle(before: seq<ClassValue>, s: string, after: seq<ClassValue>)
    requires s != ""
    requires forall i :: 0 <= i < |before| ==> !Truthy(before[i])
    requires forall i :: 0 <= i < |after| ==> !Truthy(after[i])
    ensures Cn(before + [Str(s)] + after) == s
  {
    FilterAppend(before + [Str(s)], after, Truthy);
    FilterAppend(before, [Str(s)], Truthy);
    CnAllFalsy(before);
    CnAllFalsy(after);
    assert Filter([Str(s)], Truthy) == [Str(s)];
  }
}
