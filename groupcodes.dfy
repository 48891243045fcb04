// The group-code structure of a DXF file, as both exporters of frontend/src
// emit it: lines come in pairs, a numeric group code followed by its value.
// Readers trim the lines, so the pairing is stated on the trimmed lines.
module GroupCodes {
  import opened Text

  predicate IsGroupCode(s: string) {
    |s| > 0 && forall i :: 0 <= i < |s| ==> '0' <= s[i] <= '9'
  }

  // An even number of lines, with a group code in every even position.
  predicate Paired(ls: seq<string>) {
    |ls| % 2 == 0 && forall i :: 0 <= i < |ls| && i % 2 == 0 ==> IsGroupCode(ls[i])
  }

  // Pairs of pairs are pairs.
  lemma PairedAppend(a: seq<string>, b: seq<string>)
    requires Paired(a) && Paired(b)
    ensures Paired(a + b)
  {
    forall i | 0 <= i < |a + b| && i % 2 == 0
      ensures IsGroupCode((a + b)[i])
    {
      if i >= |a| {
        assert (a + b)[i] == b[i - |a|];
      }
    }
  }

  // The lines from i on have a group code at i, i + 2, ... : a walk that
  // the verifier can unfold along a list of literals.
  predicate CodesFrom(ls: seq<string>, i: nat)
    decreases |ls| - i
  {
    i >= |ls| || (IsGroupCode(ls[i]) && CodesFrom(ls, i + 2))
  }

  lemma {:induction false} CodesFromAll(ls: seq<string>, i: nat)
    requires CodesFrom(ls, i)
    ensures forall j :: i <= j < |ls| && (j - i) % 2 == 0 ==> IsGroupCode(ls[j])
    decreases |ls| - i
  {
    if i < |ls| {
      CodesFromAll(ls, i + 2);
    }
  }

  lemma PairedByCodes(ls: seq<string>)
    requires |ls| % 2 == 0 && CodesFrom(ls, 0)
    ensures Paired(ls)
  {
    CodesFromAll(ls, 0);
  }

  // Paired blocks, one per element, make paired lines.
  lemma {:induction false} BlocksPaired<T>(xs: seq<T>, block: (T, nat) -> seq<string>)
    requires forall x, i :: Paired(block(x, i))
    ensures Paired(Blocks(xs, block))
  {
    if |xs| > 0 {
      BlocksPaired(xs[..|xs| - 1], block);
      PairedAppend(Blocks(xs[..|xs| - 1], block), block(xs[|xs| - 1], |xs| - 1));
    }
  }

  // The group codes the two exporters use.
  lemma KnownCodes()
    ensures IsGroupCode("0") && IsGroupCode("1") && IsGroupCode("2") && IsGroupCode("3")
    ensures IsGroupCode("5") && IsGroupCode("6") && IsGroupCode("8") && IsGroupCode("9")
    ensures IsGroupCode("10") && IsGroupCode("11") && IsGroupCode("20") && IsGroupCode("21")
    ensures IsGroupCode("30") && IsGroupCode("31") && IsGroupCode("40") && IsGroupCode("41")
    ensures IsGroupCode("42") && IsGroupCode("50") && IsGroupCode("62") && IsGroupCode("70")
    ensures IsGroupCode("71") && IsGroupCode("72") && IsGroupCode("73") && IsGroupCode("100")
    ensures IsGroupCode("350") && IsGroupCode("370")
  {
  }
}
