// The string forms the two DXF writers of frontend/src produce for whole
// numbers (String(n) and `${n}`), and Array.prototype.join.
module Text {

  function DigitChar(d: nat): (c: char)
    requires d < 10
    ensures '0' <= c <= '9' && (c as int) - ('0' as int) == d
  {
    ('0' as int + d) as char
  }

  // The decimal digits of n, most significant first, without leading zeros.
  function NatString(n: nat): (s: string)
    ensures |s| > 0 && forall i :: 0 <= i < |s| ==> '0' <= s[i] <= '9'
    ensures n >= 10 <==> |s| > 1
    ensures |s| > 1 ==> s[0] != '0'
  {
    if n < 10 then [DigitChar(n)]
    else
      var s := NatString(n / 10) + [DigitChar(n % 10)];
      assert s[0] == NatString(n / 10)[0];
      s
  }

  // Distinct numbers print differently, so handles built from them are
  // unique.
  lemma {:induction false} NatStringInjective(a: nat, b: nat)
    requires NatString(a) == NatString(b)
    ensures a == b
  {
    var s := NatString(a);
    if a >= 10 && b >= 10 {
      var sa, sb := NatString(a / 10), NatString(b / 10);
      assert s == sa + [DigitChar(a % 10)] && s == sb + [DigitChar(b % 10)];
      assert |sa| == |sb|;
      assert sa == s[..|s| - 1] == sb;
      NatStringInjective(a / 10, b / 10);
      assert DigitChar(a % 10) == s[|s| - 1] == DigitChar(b % 10);
    }
  }

  // ls.join(sep)
  function Join(ls: seq<string>, sep: string): (r: string)
    ensures |ls| == 0 ==> r == ""
    ensures |ls| == 1 ==> r == ls[0]
  {
    if |ls| == 0 then ""
    else if |ls| == 1 then ls[0]
    else ls[0] + sep + Join(ls[1..], sep)
  }

  // The joined text ends with the last element.
  lemma {:induction false} JoinEndsWithLast(ls: seq<string>, sep: string)
    requires |ls| > 0
    ensures var r, last := Join(ls, sep), ls[|ls| - 1];
      |last| <= |r| && r[|r| - |last|..] == last
  {
    if |ls| > 1 {
      JoinEndsWithLast(ls[1..], sep);
      assert ls[1..][|ls[1..]| - 1] == ls[|ls| - 1];
    }
  }

  // The blocks of lines that block gives each element with its index, in
  // order: the lines a forEach over the elements appends.
  function Blocks<T>(xs: seq<T>, block: (T, nat) -> seq<string>): (r: seq<string>)
    ensures |xs| == 0 ==> r == []
  {
    if |xs| == 0 then []
    else Blocks(xs[..|xs| - 1], block) + block(xs[|xs| - 1], |xs| - 1)
  }

  // One more element appends its block.
  lemma BlocksStep<T>(xs: seq<T>, block: (T, nat) -> seq<string>, i: nat)
    requires i < |xs|
    ensures Blocks(xs[..i + 1], block) == Blocks(xs[..i], block) + block(xs[i], i)
  {
    assert xs[..i + 1][..i] == xs[..i];
  }

  // Blocks of a fixed size add up.
  lemma {:induction false} BlocksLength<T>(xs: seq<T>, block: (T, nat) -> seq<string>, size: nat)
    requires forall x, i :: |block(x, i)| == size
    ensures |Blocks(xs, block)| == size * |xs|
  {
    if |xs| > 0 {
      BlocksLength(xs[..|xs| - 1], block, size);
      assert size * |xs| == size * (|xs| - 1) + size;
    }
  }

  // The k-th element's block follows the blocks of the elements before it.
  lemma {:induction false} BlockAt<T>(xs: seq<T>, block: (T, nat) -> seq<string>, k: nat)
    requires k < |xs|
    ensures |Blocks(xs[..k], block)| + |block(xs[k], k)| <= |Blocks(xs, block)|
    ensures forall i :: 0 <= i < |block(xs[k], k)| ==>
      Blocks(xs, block)[|Blocks(xs[..k], block)| + i] == block(xs[k], k)[i]
  {
    var n := |xs|;
    var init := xs[..n - 1];
    assert Blocks(xs, block) == Blocks(init, block) + block(xs[n - 1], n - 1);
    if k < n - 1 {
      BlockAt(init, block, k);
      assert init[k] == xs[k] && init[..k] == xs[..k];
    } else {
      assert init == xs[..k];
    }
  }

  // With blocks of one size, the k-th block starts at size * k.
  lemma FixedBlockAt<T>(xs: seq<T>, block: (T, nat) -> seq<string>, size: nat, k: nat)
    requires forall x, i :: |block(x, i)| == size
    requires k < |xs|
    ensures size * k + size <= |Blocks(xs, block)|
    ensures forall i :: 0 <= i < size ==> Blocks(xs, block)[size * k + i] == block(xs[k], k)[i]
  {
    BlockAt(xs, block, k);
    BlocksLength(xs[..k], block, size);
  }

  // Joined lists split at any element: it follows the separator.
  lemma {:induction false} JoinSplit(ls: seq<string>, sep: string, k: nat)
    requires 0 < k < |ls|
    ensures Join(ls, sep) == Join(ls[..k], sep) + sep + Join(ls[k..], sep)
  {
    if k > 1 {
      var rest := ls[1..];
      JoinSplit(rest, sep, k - 1);
      assert rest[..k - 1] == ls[..k][1..] && rest[k - 1..] == ls[k..];
      var a, b := Join(ls[..k][1..], sep), Join(ls[k..], sep);
      assert Join(ls, sep) == ls[0] + sep + (a + sep + b);
      assert Join(ls[..k], sep) == ls[0] + sep + a;
    }
  }

  // Three parts joined: where the middle and the last one are.
  lemma Parts3(a: seq<string>, b: seq<string>, c: seq<string>)
    ensures forall i :: 0 <= i < |a| ==> (a + b + c)[i] == a[i]
    ensures forall i :: 0 <= i < |b| ==> (a + b + c)[|a| + i] == b[i]
    ensures forall i :: 0 <= i < |c| ==> (a + b + c)[|a| + |b| + i] == c[i]
  {
  }

  // Lines that agree at every position of a window make up that window.
  lemma Window(d: seq<string>, x: seq<string>, off: nat)
    requires off + |x| <= |d|
    requires forall i :: 0 <= i < |x| ==> d[off + i] == x[i]
    ensures d[off..off + |x|] == x
  {
  }
}
