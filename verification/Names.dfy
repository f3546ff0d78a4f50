/** Host names, labels and wildcards (go/tunnel/protocol/names.go). */
module Names {

  predicate IsLowerAlnum(c: char) {
    'a' <= c <= 'z' || '0' <= c <= '9'
  }

  /** A lowercase DNS label: section 2.3.1 of RFC 1035 as relaxed by section
      2.1 of RFC 1123. */
  predicate IsDnsLabel(s: string) {
    && 1 <= |s| <= 63
    && IsLowerAlnum(s[0]) && IsLowerAlnum(s[|s| - 1])
    && forall i | 0 <= i < |s| :: IsLowerAlnum(s[i]) || s[i] == '-'
  }

  /** The two ends of a label with what is between them. */
  ghost predicate Spans(s: string, c: char, mid: string, d: char) {
    && s == [c] + mid + [d] && |mid| <= 61
    && ('a' <= c <= 'z' || '0' <= c <= '9') && ('a' <= d <= 'z' || '0' <= d <= '9')
    && forall i | 0 <= i < |mid| :: 'a' <= mid[i] <= 'z' || '0' <= mid[i] <= '9' || mid[i] == '-'
  }

  /** One letter or digit, or two with up to 61 letters, digits and hyphens between. */
  lemma LabelMeans(s: string)
    ensures IsDnsLabel(s) <==>
            (|s| == 1 && ('a' <= s[0] <= 'z' || '0' <= s[0] <= '9')) || exists c, mid, d :: Spans(s, c, mid, d)
  {
    if IsDnsLabel(s) && |s| > 1 {
      assert Spans(s, s[0], s[1..|s| - 1], s[|s| - 1]);
    }
    if c, mid, d :| Spans(s, c, mid, d) {
      forall i | 0 <= i < |s| ensures IsLowerAlnum(s[i]) || s[i] == '-' {
        assert s[i] == if i == 0 then c else if i <= |mid| then mid[i - 1] else d;
      }
    }
  }

  predicate HasSuffix(s: string, suffix: string) {
    |suffix| <= |s| && s[|s| - |suffix|..] == suffix
  }

  // ---------------------------------------------------------------------
  // Labels
  // ---------------------------------------------------------------------

  /** The labels between the dots; at least one, possibly empty. */
  function Split(s: string): (labels: seq<string>)
    ensures labels != []
  {
    if s == "" then [""] else Prepend(s[0], Split(s[1..]))
  }

  function Prepend(c: char, labels: seq<string>): (r: seq<string>)
    requires labels != []
    ensures r != []
  {
    if c == '.' then [""] + labels else [[c] + labels[0]] + labels[1..]
  }

  lemma PrependAppend(c: char, a: seq<string>, b: seq<string>)
    requires a != []
    ensures Prepend(c, a + b) == Prepend(c, a) + b
  {
    assert (a + b)[1..] == a[1..] + b;
  }

  lemma PrependNoDots(c: char, labels: seq<string>)
    requires labels != [] && forall l | l in labels :: NoDots(l)
    ensures forall l | l in Prepend(c, labels) :: NoDots(l)
  {
    if c != '.' { assert NoDots([c] + labels[0]) by { assert NoDots(labels[0]); } }
  }

  function Join(labels: seq<string>): string
    requires labels != []
  {
    if |labels| == 1 then labels[0] else labels[0] + "." + Join(labels[1..])
  }

  lemma {:induction false} JoinSplit(s: string)
    ensures Join(Split(s)) == s
  {
    if s != "" {
      JoinSplit(s[1..]);
      var rest := Split(s[1..]);
      if s[0] == '.' {
        assert ([""] + rest)[1..] == rest;
      } else {
        assert Split(s)[1..] == rest[1..];
      }
    }
  }

  predicate NoDots(s: string) { '.' !in s }

  lemma {:induction false} LabelsHaveNoDots(s: string)
    ensures forall l | l in Split(s) :: NoDots(l)
  {
    if s != "" {
      LabelsHaveNoDots(s[1..]);
      PrependNoDots(s[0], Split(s[1..]));
    }
  }

  /** A domain of more than one label has a dot, and the other way round. */
  lemma {:induction false} JoinDots(labels: seq<string>)
    requires labels != [] && forall l | l in labels :: NoDots(l)
    ensures NoDots(Join(labels)) <==> |labels| == 1
  {
    if |labels| > 1 {
      assert Join(labels)[|labels[0]|] == '.';
    }
  }

  // ---------------------------------------------------------------------
  // Wildcards
  // ---------------------------------------------------------------------

  /** The wildcard domains that cover host, closest first. */
  function WildcardsOf(host: string): (ws: seq<string>) {
    var labels := Split(host);
    if |labels| < 3 then [] else seq(|labels| - 2, i requires 0 <= i < |labels| - 2 => "*." + Join(labels[i + 1..]))
  }

  /** host is a name under domain, at any depth. */
  predicate Under(host: string, domain: string) {
    HasSuffix(host, "." + domain)
  }

  /** wildcard is "*.<domain>" for a domain of at least two labels that host is
      under. */
  predicate Covers(wildcard: string, host: string) {
    |wildcard| >= 2 && wildcard[..2] == "*." && Under(host, wildcard[2..]) && '.' in wildcard[2..]
  }

  lemma {:induction false} JoinAt(labels: seq<string>, i: nat)
    requires 0 < i < |labels|
    ensures Join(labels) == Join(labels[..i]) + "." + Join(labels[i..])
  {
    if i == 1 {
      assert labels[..1] == [labels[0]];
    } else {
      JoinAt(labels[1..], i - 1);
      assert labels[1..][..i - 1] == labels[..i][1..];
      assert labels[1..][i - 1..] == labels[i..];
    }
  }

  lemma WildcardCovers(host: string, i: nat)
    requires i < |WildcardsOf(host)|
    ensures Covers(WildcardsOf(host)[i], host)
  {
    hide Split, Join;
    var labels := Split(host);
    JoinSplit(host);
    LabelsHaveNoDots(host);
    JoinAt(labels, i + 1);
    JoinDots(labels[i + 1..]);
    var d := Join(labels[i + 1..]);
    assert host == Join(labels[..i + 1]) + ("." + d);
    assert ("*." + d)[2..] == d;
  }

  /** Closest first: each covers a longer domain than the next. */
  lemma WildcardsShrink(host: string, i: nat, j: nat)
    requires i < j < |WildcardsOf(host)|
    ensures |WildcardsOf(host)[i]| > |WildcardsOf(host)[j]|
  {
    hide Split, Join;
    var labels := Split(host)[i + 1..];
    JoinAt(labels, j - i);
    assert labels[j - i..] == Split(host)[j + 1..];
  }

  /** Where host is cut at a dot, its labels are. */
  lemma {:induction false} SplitAt(host: string, k: nat)
    requires k < |host| && host[k] == '.'
    ensures Split(host) == Split(host[..k]) + Split(host[k + 1..])
  {
    if k == 0 {
      assert Split(host[..0]) == [""];
    } else {
      SplitAt(host[1..], k - 1);
      assert host[1..][..k - 1] == host[..k][1..];
      assert host[1..][k..] == host[k + 1..];
      PrependAppend(host[0], Split(host[..k][1..]), Split(host[k + 1..]));
    }
  }

  lemma CoveringIsListed(host: string, w: string)
    requires Covers(w, host)
    ensures w in WildcardsOf(host)
  {
    var d := w[2..];
    var k := |host| - |d| - 1;
    assert host[k..] == "." + d;
    assert host[k] == '.' && host[k + 1..] == d;
    SplitAt(host, k);
    var head, tail := Split(host[..k]), Split(d);
    LabelsHaveNoDots(d);
    JoinSplit(d);
    JoinDots(tail);
    var labels := Split(host);
    assert labels[|head|..] == tail;
    assert WildcardsOf(host)[|head| - 1] == "*." + d;
    assert w == "*." + d;
  }

  /** The listed wildcards are exactly the covering ones. */
  lemma WildcardsAreCovering(host: string, w: string)
    ensures w in WildcardsOf(host) <==> Covers(w, host)
  {
    if w in WildcardsOf(host) {
      var i :| 0 <= i < |WildcardsOf(host)| && WildcardsOf(host)[i] == w;
      WildcardCovers(host, i);
    }
    if Covers(w, host) { CoveringIsListed(host, w); }
  }
}
