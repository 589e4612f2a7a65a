/** The order in which identifiers are listed: by character code, a prefix first. */
module Order {

  predicate Less(a: string, b: string) {
    b != [] && (a == [] || a[0] < b[0] || (a[0] == b[0] && Less(a[1..], b[1..])))
  }

  lemma {:induction false} LessIrreflexive(a: string)
    ensures !Less(a, a)
  {
    if a != [] { LessIrreflexive(a[1..]); }
  }

  lemma {:induction false} LessTransitive(a: string, b: string, c: string)
    requires Less(a, b) && Less(b, c)
    ensures Less(a, c)
  {
    if a != [] && a[0] == b[0] == c[0] { LessTransitive(a[1..], b[1..], c[1..]); }
  }

  lemma {:induction false} LessTotal(a: string, b: string)
    ensures a == b || Less(a, b) || Less(b, a)
  {
    if a != [] && b != [] && a[0] == b[0] {
      LessTotal(a[1..], b[1..]);
      if a[1..] == b[1..] {
        assert a == [a[0]] + a[1..] && b == [b[0]] + b[1..];
      }
    }
  }

  /** Two strings differ first at one place, or one ends there. */
  lemma {:induction false} LessIsLexicographic(a: string, b: string)
    ensures Less(a, b) <==>
            exists k :: 0 <= k <= |a| && k <= |b| && a[..k] == b[..k]
                        && (if k == |a| then k < |b| else k < |b| && a[k] < b[k])
  {
    if a == [] || b == [] || a[0] != b[0] {
      assert a[..0] == b[..0];
      forall k | 0 < k <= |a| && k <= |b| ensures a[..k] != b[..k] {
        assert a[..k][0] == a[0] && b[..k][0] == b[0];
      }
    } else {
      LessIsLexicographic(a[1..], b[1..]);
      forall k | 0 <= k <= |a[1..]| && k <= |b[1..]| ensures a[1..][..k] == b[1..][..k] <==> a[..k + 1] == b[..k + 1] {
        assert a[..k + 1] == [a[0]] + a[1..][..k] && b[..k + 1] == [b[0]] + b[1..][..k];
        assert a[1..][..k] == a[..k + 1][1..] && b[1..][..k] == b[..k + 1][1..];
      }
      if Less(a, b) {
        var k :| 0 <= k <= |a[1..]| && k <= |b[1..]| && a[1..][..k] == b[1..][..k]
                 && (if k == |a[1..]| then k < |b[1..]| else k < |b[1..]| && a[1..][k] < b[1..][k]);
        assert a[..k + 1] == b[..k + 1];
      }
      if k :| 0 <= k <= |a| && k <= |b| && a[..k] == b[..k]
              && (if k == |a| then k < |b| else k < |b| && a[k] < b[k]) {
        assert k > 0 && a[1..][..k - 1] == b[1..][..k - 1];
      }
    }
  }

  ghost predicate IsLeast(s: set<string>, least: string) {
    least in s && forall x :: x in s ==> x == least || Less(least, x)
  }

  ghost predicate Ascending(s: seq<string>) {
    forall i, j :: 0 <= i < j < |s| ==> Less(s[i], s[j])
  }

  method Least(s: set<string>) returns (least: string)
    requires s != {}
    ensures IsLeast(s, least)
  {
    var rest := s;
    least :| least in s;
    rest := rest - {least};
    while rest != {}
      invariant rest <= s && least in s && least !in rest
      invariant forall x :: x in s - rest ==> x == least || Less(least, x)
      decreases |rest|
    {
      var next :| next in rest;
      rest := rest - {next};
      LessTotal(next, least);
      if Less(next, least) {
        forall x | x in s - rest ensures x == next || Less(next, x) {
          if x != next && x != least { LessTransitive(next, least, x); }
        }
        least := next;
      }
    }
  }

  /** Lists a set in order. */
  method Sorted(s: set<string>) returns (result: seq<string>)
    ensures Ascending(result)
    ensures forall x :: x in result <==> x in s
  {
    result := [];
    var rest := s;
    while rest != {}
      invariant rest <= s
      invariant forall x :: x in result <==> x in s - rest
      invariant Ascending(result)
      invariant forall i, x :: 0 <= i < |result| && x in rest ==> Less(result[i], x)
      decreases |rest|
    {
      var next := Least(rest);
      result := result + [next];
      rest := rest - {next};
    }
  }
}
