/** String.replace and the URL templates of the client. */
module Urls {

  /** The path placeholder that stands for the wallet id. */
  const WalletPlaceholder: string := "$WALLET"

  /** Java's String.replace(target, replacement): every occurrence of pat, scanned
      from left to right without overlaps, is replaced by rep. */
  function Replace(s: string, pat: string, rep: string): (r: string)
    requires |pat| > 0
    ensures rep == pat ==> r == s
    decreases |s|
  {
    if |s| < |pat| then s
    else if s[..|pat|] == pat then rep + Replace(s[|pat|..], pat, rep)
    else [s[0]] + Replace(s[1..], pat, rep)
  }

  /** The pieces joined with sep between consecutive ones. */
  function Join(pieces: seq<string>, sep: string): string
  {
    if |pieces| <= 1 then (if pieces == [] then "" else pieces[0])
    else pieces[0] + sep + Join(pieces[1..], sep)
  }

  /** pat occurs in s starting at index i. */
  predicate OccursAt(s: string, pat: string, i: int)
  {
    0 <= i && i + |pat| <= |s| && s[i..i + |pat|] == pat
  }

  /** pat occurs nowhere in s. */
  predicate Free(s: string, pat: string)
  {
    forall i :: 0 <= i <= |s| ==> !OccursAt(s, pat, i)
  }

  /** No proper prefix of pat is also a suffix of it, so two occurrences of pat
      never overlap and none can straddle a pat-free text and a following pat. */
  predicate Borderless(pat: string)
  {
    forall k :: 0 < k < |pat| ==> pat[..k] != pat[|pat| - k..]
  }

  /** A text without pat's first character is free of pat. */
  lemma HeadAbsentFree(s: string, pat: string)
    requires |pat| > 0 && pat[0] !in s
    ensures Free(s, pat)
  {
    forall i | 0 <= i && i + |pat| <= |s| ensures !OccursAt(s, pat, i) {
      assert s[i..i + |pat|][0] == s[i];
    }
  }

  /** A pattern whose first character does not recur in it is borderless. */
  lemma HeadUniqueBorderless(pat: string)
    requires |pat| > 0 && pat[0] !in pat[1..]
    ensures Borderless(pat)
  {
    forall k | 0 < k < |pat| ensures pat[..k] != pat[|pat| - k..] {
      assert pat[|pat| - k..][0] == pat[|pat| - k] == pat[1..][|pat| - k - 1];
      assert pat[..k][0] == pat[0];
    }
  }

  /** A free text loses an occurrence at its head to its tail. */
  lemma FreeTail(s: string, pat: string)
    requires |s| > 0 && Free(s, pat)
    ensures Free(s[1..], pat)
  {
    forall i | 0 <= i && i + |pat| <= |s| - 1 ensures !OccursAt(s[1..], pat, i) {
      assert !OccursAt(s, pat, i + 1);
      assert s[1..][i..i + |pat|] == s[i + 1..i + 1 + |pat|];
    }
  }

  /** Replace leaves a text in which pat does not occur unchanged. */
  lemma {:induction false} ReplaceFree(p: string, pat: string, rep: string)
    requires |pat| > 0 && Free(p, pat)
    ensures Replace(p, pat, rep) == p
    decreases |p|
  {
    if |p| >= |pat| {
      assert !OccursAt(p, pat, 0);
      assert p[..|pat|] == p[0..0 + |pat|];
      FreeTail(p, pat);
      ReplaceFree(p[1..], pat, rep);
      assert p == [p[0]] + p[1..];
    }
  }

  /** In a pat-free text followed by pat, the first match is that pat. */
  lemma {:induction false} ReplaceFreeThenPat(p: string, pat: string, rest: string, rep: string)
    requires |pat| > 0 && Borderless(pat) && Free(p, pat)
    ensures Replace(p + pat + rest, pat, rep) == p + rep + Replace(rest, pat, rep)
    decreases |p|
  {
    var s := p + pat + rest;
    if p == [] {
      assert s == pat + rest;
      assert s[..|pat|] == pat && s[|pat|..] == rest;
    } else {
      assert s[..|pat|] != pat by {
        if |p| >= |pat| {
          assert !OccursAt(p, pat, 0);
          assert s[..|pat|] == p[0..0 + |pat|];
        } else {
          var k := |pat| - |p|;
          assert s[|p|..|pat|] == pat[..k];
          assert pat[..k] != pat[|pat| - k..];
          assert s[..|pat|][|p|..] == s[|p|..|pat|];
        }
      }
      FreeTail(p, pat);
      ReplaceFreeThenPat(p[1..], pat, rest, rep);
      assert s[1..] == p[1..] + pat + rest;
      assert p + rep + Replace(rest, pat, rep) == [p[0]] + (p[1..] + rep + Replace(rest, pat, rep));
    }
  }

  /** Replacing a borderless pat in a text built from pat-free pieces separated by
      pat puts rep between the pieces instead: every placeholder is substituted,
      nothing else. */
  lemma {:induction false} ReplaceJoin(pieces: seq<string>, pat: string, rep: string)
    requires |pat| > 0 && Borderless(pat)
    requires forall i :: 0 <= i < |pieces| ==> Free(pieces[i], pat)
    ensures Replace(Join(pieces, pat), pat, rep) == Join(pieces, rep)
    decreases |pieces|
  {
    if |pieces| == 0 {
    } else if |pieces| == 1 {
      ReplaceFree(pieces[0], pat, rep);
    } else {
      var rest := Join(pieces[1..], pat);
      assert Join(pieces, pat) == pieces[0] + pat + rest;
      ReplaceFreeThenPat(pieces[0], pat, rest, rep);
      ReplaceJoin(pieces[1..], pat, rep);
    }
  }

  /** The wallet placeholder is borderless. */
  lemma PlaceholderBorderless()
    ensures Borderless(WalletPlaceholder)
  {
    assert WalletPlaceholder[0] !in WalletPlaceholder[1..];
    HeadUniqueBorderless(WalletPlaceholder);
  }
}
