/**
 Qualified function names: namespace segments joined with `::`, and the
 split that recovers the segments when none of them contains a colon.
 */
module Names {

  /** No character of `s` is a colon (true of Rust identifiers and of `<??>`). */
  predicate ColonFree(s: string) {
    forall i :: 0 <= i < |s| ==> s[i] != ':'
  }

  predicate AllColonFree(segments: seq<string>) {
    forall i :: 0 <= i < |segments| ==> ColonFree(segments[i])
  }

  /** The segments with `::` between neighbours, as Rust's `join("::")`. */
  function Join(segments: seq<string>): string
    decreases |segments|
  {
    if |segments| == 0 then ""
    else if |segments| == 1 then segments[0]
    else segments[0] + "::" + Join(segments[1..])
  }

  /** A joined name is empty for no segments; otherwise it starts with the
      first segment and ends with the last. */
  lemma {:induction false} JoinEnds(segments: seq<string>)
    ensures |segments| == 0 ==> Join(segments) == ""
    ensures |segments| > 0 ==> segments[0] <= Join(segments)
    ensures |segments| > 0 ==> EndsWith(Join(segments), segments[|segments| - 1])
    decreases |segments|
  {
    if |segments| > 1 {
      var rest := Join(segments[1..]);
      JoinEnds(segments[1..]);
      var last := segments[|segments| - 1];
      var s := segments[0] + "::" + rest;
      assert s[|s| - |last|..] == rest[|rest| - |last|..];
    }
  }

  /** `s` ends with `suffix`. */
  predicate EndsWith(s: string, suffix: string) {
    |suffix| <= |s| && s[|s| - |suffix|..] == suffix
  }

  /** The pieces of `s` between occurrences of `::`, scanning left to right. */
  function Split(s: string): (parts: seq<string>)
    ensures |parts| >= 1
    decreases |s|
  {
    if |s| == 0 then [""]
    else if |s| >= 2 && s[0] == ':' && s[1] == ':' then [""] + Split(s[2..])
    else
      var rest := Split(s[1..]);
      [[s[0]] + rest[0]] + rest[1..]
  }

  /** A colon-free string is a single piece. */
  lemma {:induction false} SplitColonFree(a: string)
    requires ColonFree(a)
    ensures Split(a) == [a]
    decreases |a|
  {
    if |a| > 0 {
      SplitColonFree(a[1..]);
      assert [a[0]] + a[1..] == a;
    }
  }

  /** A colon-free piece followed by `::` splits off as the first piece. */
  lemma {:induction false} SplitAfterSegment(a: string, t: string)
    requires ColonFree(a)
    ensures Split(a + "::" + t) == [a] + Split(t)
    decreases |a|
  {
    var s := a + "::" + t;
    if |a| == 0 {
      assert s[2..] == t;
    } else {
      assert s[1..] == a[1..] + "::" + t;
      SplitAfterSegment(a[1..], t);
      assert [a[0]] + a[1..] == a;
    }
  }

  /** Splitting undoes joining when every segment is colon-free. */
  lemma {:induction false} SplitJoin(segments: seq<string>)
    requires |segments| > 0 && AllColonFree(segments)
    ensures Split(Join(segments)) == segments
    decreases |segments|
  {
    if |segments| == 1 {
      SplitColonFree(segments[0]);
    } else {
      SplitAfterSegment(segments[0], Join(segments[1..]));
      SplitJoin(segments[1..]);
    }
  }

  /** Distinct non-empty colon-free namespaces give distinct names. */
  lemma JoinInjective(a: seq<string>, b: seq<string>)
    requires |a| > 0 && AllColonFree(a)
    requires |b| > 0 && AllColonFree(b)
    ensures Join(a) == Join(b) ==> a == b
  {
    SplitJoin(a);
    SplitJoin(b);
  }
}
