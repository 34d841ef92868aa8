/** Python string operations the application relies on, over code points
    (Python's `len` and slicing count code points, as Dafny's `char` does). */
module Text {

  /** `s.startswith(p)` */
  predicate StartsWith(s: string, p: string) {
    |p| <= |s| && s[..|p|] == p
  }

  /** `sub` occurs in `s` starting at index `i`. */
  predicate OccursAt(s: string, sub: string, i: int) {
    0 <= i && i + |sub| <= |s| && s[i..i + |sub|] == sub
  }

  /** `sub in s`, computed by scanning `s` from the left. */
  function Contains(s: string, sub: string): (r: bool)
    ensures r <==> exists i :: OccursAt(s, sub, i)
    decreases |s|
  {
    if StartsWith(s, sub) then
      assert OccursAt(s, sub, 0);
      true
    else if |s| <= |sub| then
      false
    else
      var r := Contains(s[1..], sub);
      assert r ==> exists i :: OccursAt(s, sub, i) by {
        if r {
          var j :| OccursAt(s[1..], sub, j);
          assert s[j + 1..j + 1 + |sub|] == s[1..][j..j + |sub|];
          assert OccursAt(s, sub, j + 1);
        }
      }
      assert (exists i :: OccursAt(s, sub, i)) ==> r by {
        if exists i :: OccursAt(s, sub, i) {
          var i :| OccursAt(s, sub, i);
          assert i != 0;
          assert s[1..][i - 1..i - 1 + |sub|] == s[i..i + |sub|];
          assert OccursAt(s[1..], sub, i - 1);
        }
      }
      r
  }

  /** `s[:n]`: Python slicing clamps the bound to the length. */
  function Take(s: string, n: nat): (r: string)
    ensures |r| == if n < |s| then n else |s|
    ensures StartsWith(s, r)
  {
    if n < |s| then s[..n] else s
  }

  /** `sep.join(xs)` */
  function Join(sep: string, xs: seq<string>): string {
    if |xs| == 0 then ""
    else if |xs| == 1 then xs[0]
    else xs[0] + sep + Join(sep, xs[1..])
  }

  /** Appending one more element to the list extends the joined text by the
      separator and that element, and by nothing else. */
  lemma {:induction false} JoinSnoc(sep: string, xs: seq<string>, x: string)
    ensures Join(sep, xs + [x]) == if xs == [] then x else Join(sep, xs) + sep + x
    decreases |xs|
  {
    if |xs| >= 2 {
      assert (xs + [x])[1..] == xs[1..] + [x];
      JoinSnoc(sep, xs[1..], x);
    } else if |xs| == 1 {
      assert (xs + [x])[1..] == [x];
    }
  }

  /** Joining a longer list only ever extends the text of a shorter prefix. */
  lemma {:induction false} JoinPrefix(sep: string, xs: seq<string>, j: nat)
    requires j <= |xs|
    ensures StartsWith(Join(sep, xs), Join(sep, xs[..j]))
    decreases |xs| - j
  {
    if j < |xs| {
      JoinPrefix(sep, xs, j + 1);
      assert xs[..j + 1] == xs[..j] + [xs[j]];
      JoinSnoc(sep, xs[..j], xs[j]);
    } else {
      assert xs[..j] == xs;
    }
  }

  /** Every element of the list is visible in the joined text. */
  lemma JoinShowsEach(sep: string, xs: seq<string>, k: nat)
    requires k < |xs|
    ensures Contains(Join(sep, xs), xs[k])
  {
    var pre := Join(sep, xs[..k + 1]);
    assert xs[..k + 1] == xs[..k] + [xs[k]];
    JoinSnoc(sep, xs[..k], xs[k]);
    JoinPrefix(sep, xs, k + 1);
    var whole := Join(sep, xs);
    var i := |pre| - |xs[k]|;
    assert whole[i..i + |xs[k]|] == pre[i..i + |xs[k]|];
    assert OccursAt(whole, xs[k], i);
  }
}
