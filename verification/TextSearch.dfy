/** strstr: where a text first occurs in another. */
module TextSearch {
  import opened Bytes

  predicate OccursAt(s: seq<byte>, p: seq<byte>, i: nat) {
    i + |p| <= |s| && forall k :: 0 <= k < |p| ==> s[i + k] == p[k]
  }

  ghost predicate Contains(s: seq<byte>, p: seq<byte>) {
    exists i: nat :: OccursAt(s, p, i)
  }

  /** The first occurrence from position i on. */
  function FirstFrom(s: seq<byte>, p: seq<byte>, i: nat): Option<nat>
    decreases |s| - i
  {
    if i + |p| > |s| then None
    else if OccursAt(s, p, i) then Some(i)
    else FirstFrom(s, p, i + 1)
  }

  lemma {:induction false} FirstIs(s: seq<byte>, p: seq<byte>, from: nat, i: nat)
    requires from <= i && OccursAt(s, p, i) && forall j :: from <= j < i ==> !OccursAt(s, p, j)
    ensures FirstFrom(s, p, from) == Some(i)
    decreases i - from
  {
    if from < i {
      FirstIs(s, p, from + 1, i);
    }
  }

  lemma {:induction false} FirstIsFirst(s: seq<byte>, p: seq<byte>, from: nat)
    ensures match FirstFrom(s, p, from)
            case None => forall j :: j >= from ==> !OccursAt(s, p, j)
            case Some(i) => from <= i && OccursAt(s, p, i) && forall j :: from <= j < i ==> !OccursAt(s, p, j)
    decreases |s| - from
  {
    if from + |p| <= |s| && !OccursAt(s, p, from) {
      FirstIsFirst(s, p, from + 1);
    }
  }

  lemma OccursInRest(a: seq<byte>, b: seq<byte>, p: seq<byte>, i: nat)
    ensures OccursAt(a + b, p, |a| + i) <==> OccursAt(b, p, i)
  {
    var s := a + b;
    forall k | 0 <= k < |p| && i + k < |b| ensures s[|a| + i + k] == p[k] <==> b[i + k] == p[k] {}
  }

  lemma OccursInStart(a: seq<byte>, b: seq<byte>, p: seq<byte>, i: nat)
    requires i + |p| <= |a|
    ensures OccursAt(a + b, p, i) <==> OccursAt(a, p, i)
  {
    var s := a + b;
    forall k | 0 <= k < |p| ensures s[i + k] == p[k] <==> a[i + k] == p[k] {}
  }

  /** Whether the text at this position starts with the name; a comparison passes no NUL and no end. */
  method StartsWith(request: seq<byte>, name: seq<byte>, at: nat) returns (r: bool)
    requires NulFree(name) && at <= |CStr(request)|
    ensures r == OccursAt(CStr(request), name, at)
  {
    ghost var text := CStr(request);
    var k := 0;
    while k < |name| && at + k < |request| && request[at + k] == name[k]
      invariant k <= |name| && at + k <= |text|
      invariant forall j :: 0 <= j < k ==> text[at + j] == name[j]
    {
      assert text[at + k] == name[k];
      k := k + 1;
    }
    r := k == |name|;
  }

  /** strstr. Without a NUL in what is there, a name that is not there is searched for beyond it. */
  method StrStr(request: seq<byte>, name: seq<byte>) returns (r: Option<nat>)
    requires NulFree(name) && name != []
    ensures r == FirstFrom(CStr(request), name, 0)
  {
    var i := 0;
    r := None;
    while i < |request| && request[i] != 0
      invariant i <= |CStr(request)|
      invariant FirstFrom(CStr(request), name, 0) == FirstFrom(CStr(request), name, i)
      decreases |CStr(request)| - i
    {
      var here := StartsWith(request, name, i);
      if here {
        return Some(i);
      }
      i := i + 1;
    }
  }
}
