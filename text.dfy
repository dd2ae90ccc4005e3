/**
 * The string operations the planner applies to rendered SQL text:
 * splitting on the last `.` (`str.rsplit(".", 1)`), on the first `.`
 * (`str.split(".", 1)`), taking the last `.`-component
 * (`str.split(".")[-1]`) and joining with a separator (`str.join`).
 */
module Text {
  import opened Wrappers

  /** Index of the first `.` in `s`, if any. */
  function FirstDot(s: string): (r: Option<nat>)
    ensures r.None? <==> '.' !in s
    ensures r.Some? ==> r.value < |s| && s[r.value] == '.' && '.' !in s[..r.value]
  {
    if |s| == 0 then None
    else if s[0] == '.' then Some(0)
    else
      var rest := FirstDot(s[1..]);
      assert s == [s[0]] + s[1..];
      if rest.None? then None
      else
        assert s[..rest.value + 1] == [s[0]] + s[1..][..rest.value];
        Some(rest.value + 1)
  }

  /** Index of the last `.` in `s`, if any. */
  function LastDot(s: string): (r: Option<nat>)
    ensures r.None? <==> '.' !in s
    ensures r.Some? ==> r.value < |s| && s[r.value] == '.' && '.' !in s[r.value + 1..]
  {
    if |s| == 0 then None
    else if s[|s| - 1] == '.' then Some(|s| - 1)
    else
      var init := s[..|s| - 1];
      var rest := LastDot(init);
      assert s == init + [s[|s| - 1]];
      if rest.None? then None
      else
        assert s[rest.value + 1..] == init[rest.value + 1..] + [s[|s| - 1]];
        Some(rest.value)
  }

  /**
   * The qualifier of a rendered column (`"a.id"` gives `"a"`): everything
   * before the last `.`, or `None` when there is no `.` at all.
   */
  function QualifierOf(s: string): (r: Option<string>)
    ensures r.None? <==> '.' !in s
    ensures r.Some? ==> |r.value| < |s|
  {
    match LastDot(s)
    case None => None
    case Some(i) => Some(s[..i])
  }

  /**
   * A qualifier is followed in `s` by a `.` and a suffix with no `.`:
   * `s == qual + "." + suffix`.
   */
  lemma QualifierSplit(s: string)
    requires '.' in s
    ensures var q := QualifierOf(s).value;
      && s == q + "." + s[|q| + 1..]
      && '.' !in s[|q| + 1..]
  {
    var i := LastDot(s).value;
    assert s == s[..i] + "." + s[i + 1..];
  }

  /**
   * What follows the first `.` of `s` (`"a.id"` gives `"id"`); the planner
   * stores this as the bare column name.
   */
  function BareName(s: string): (r: string)
    requires '.' in s
    ensures |r| < |s|
  {
    var i := FirstDot(s).value;
    s[i + 1..]
  }

  /** The bare name follows a prefix with no `.` and one `.`. */
  lemma BareNameSplit(s: string)
    requires '.' in s
    ensures var b := BareName(s); var p := s[..|s| - |b| - 1];
      s == p + "." + b && '.' !in p
  {
    var i := FirstDot(s).value;
    assert s == s[..i] + "." + s[i + 1..];
  }

  /** A text `p + "." + t` with no `.` in `t` has the qualifier `p`. */
  lemma QualifierOfJoin(p: string, t: string)
    requires '.' !in t
    ensures QualifierOf(p + "." + t) == Some(p)
  {
    var s := p + "." + t;
    assert s[|p|] == '.';
    var i := LastDot(s).value;
    assert s[|p| + 1..] == t;
    assert s[..|p|] == p;
  }

  /** A text `p + "." + t` with no `.` in `p` has the bare name `t`. */
  lemma BareNameOfJoin(p: string, t: string)
    requires '.' !in p
    ensures '.' in p + "." + t && BareName(p + "." + t) == t
  {
    var s := p + "." + t;
    assert s[|p|] == '.';
    var i := FirstDot(s).value;
    assert s[..|p|] == p;
    assert s[|p| + 1..] == t;
  }

  /** The last `.`-component of `s`: the whole of `s` when it has no `.`. */
  function LastComponent(s: string): (r: string)
    ensures '.' !in r
    ensures |r| <= |s| && s[|s| - |r|..] == r
    ensures '.' !in s ==> r == s
    ensures '.' in s ==> |r| < |s| && s[|s| - |r| - 1] == '.'
  {
    match LastDot(s)
    case None => s
    case Some(i) => s[i + 1..]
  }

  /** The elements of `xs` with `sep` between neighbours, as `sep.join(xs)`. */
  function JoinWith(sep: string, xs: seq<string>): string
  {
    if |xs| == 0 then ""
    else if |xs| == 1 then xs[0]
    else xs[0] + sep + JoinWith(sep, xs[1..])
  }

  /** Joining two non-empty lists puts one separator between their joins. */
  lemma {:induction false} JoinWithAppend(sep: string, xs: seq<string>, ys: seq<string>)
    requires |xs| > 0 && |ys| > 0
    ensures JoinWith(sep, xs + ys) == JoinWith(sep, xs) + sep + JoinWith(sep, ys)
  {
    if |xs| == 1 {
      assert (xs + ys)[1..] == ys;
    } else {
      assert (xs + ys)[1..] == xs[1..] + ys;
      JoinWithAppend(sep, xs[1..], ys);
    }
  }

  /** A joined list starts with its first element. */
  lemma {:induction false} JoinWithPrefix(sep: string, xs: seq<string>)
    requires |xs| > 0
    ensures |xs[0]| <= |JoinWith(sep, xs)| && JoinWith(sep, xs)[..|xs[0]|] == xs[0]
  {
  }

  /** A joined list ends with its last element. */
  lemma {:induction false} JoinWithSuffix(sep: string, xs: seq<string>)
    requires |xs| > 0
    ensures var j := JoinWith(sep, xs); var l := xs[|xs| - 1];
      |l| <= |j| && j[|j| - |l|..] == l
  {
    if |xs| > 1 {
      JoinWithSuffix(sep, xs[1..]);
    }
  }

  /**
   * A dotted name whose parts hold no `.` has its last part as its last
   * component: `"db.schema.t"` gives `"t"`.
   */
  lemma {:induction false} LastComponentOfDotted(parts: seq<string>)
    requires |parts| > 0
    requires forall i :: 0 <= i < |parts| ==> '.' !in parts[i]
    ensures LastComponent(JoinWith(".", parts)) == parts[|parts| - 1]
  {
    var s := JoinWith(".", parts);
    var l := parts[|parts| - 1];
    JoinWithSuffix(".", parts);
    if |parts| == 1 {
    } else {
      var init := parts[..|parts| - 1];
      assert parts == init + [l];
      JoinWithAppend(".", init, [l]);
      assert s == JoinWith(".", init) + "." + l;
      assert s[|s| - |l| - 1] == '.';
      assert s[|s| - |l|..] == l;
    }
  }
}
