/**
 * String operations the source relies on: Python's `str.lower`, `in`,
 * `str.split(sep)`, `str.strip()` and `", ".join`, and JavaScript's
 * `split`, `trim` and truthiness of strings. Characters are compared one
 * by one; only the ASCII letters and the ASCII white-space characters are
 * given their special meaning.
 */
module Text {
  import opened Seqs

  predicate IsUpper(c: char) { 'A' <= c <= 'Z' }

  function LowerChar(c: char): (d: char)
    ensures !IsUpper(d)
    ensures !IsUpper(c) ==> d == c
  {
    if IsUpper(c) then (c as int + 32) as char else c
  }

  /** `s.lower()` / `s.toLowerCase()` on ASCII letters. */
  function Lower(s: string): (r: string)
    ensures |r| == |s|
    ensures forall i :: 0 <= i < |s| ==> r[i] == LowerChar(s[i])
  {
    if s == [] then [] else [LowerChar(s[0])] + Lower(s[1..])
  }

  /** Lowering twice is lowering once. */
  lemma LowerIdempotent(s: string)
    ensures Lower(Lower(s)) == Lower(s)
  {
  }

  predicate StartsWith(s: string, prefix: string) {
    |prefix| <= |s| && s[..|prefix|] == prefix
  }

  /** Python's `sub in s` on strings: `sub` occurs in `s` at some position. */
  predicate Contains(s: string, sub: string)
    decreases |s|
  {
    StartsWith(s, sub) || (s != [] && Contains(s[1..], sub))
  }

  /** `sub` occurs in `s` starting at index `i`. */
  predicate OccursAt(s: string, sub: string, i: int) {
    0 <= i <= |s| - |sub| && s[i..i + |sub|] == sub
  }

  /** `Contains` means "`sub` occurs in `s` at some index". */
  lemma {:induction false} ContainsAt(s: string, sub: string)
    ensures Contains(s, sub) <==> exists i :: OccursAt(s, sub, i)
    decreases |s|
  {
    if StartsWith(s, sub) {
      assert OccursAt(s, sub, 0);
    } else if s != [] {
      ContainsAt(s[1..], sub);
      if Contains(s[1..], sub) {
        var i :| OccursAt(s[1..], sub, i);
        assert OccursAt(s, sub, i + 1);
      }
      if i :| OccursAt(s, sub, i) {
        assert i != 0;
        assert OccursAt(s[1..], sub, i - 1);
      }
    }
  }

  /** Number of occurrences of `c` in `s`. */
  function Count(s: string, c: char): nat {
    if s == [] then 0 else (if s[0] == c then 1 else 0) + Count(s[1..], c)
  }

  /** `s.split(sep)` with a one-character separator: the pieces between separators, empty ones included. */
  function Split(s: string, sep: char): (r: seq<string>)
    ensures |r| == Count(s, sep) + 1
    ensures forall p :: p in r ==> sep !in p
  {
    if s == [] then [""]
    else
      var rest := Split(s[1..], sep);
      if s[0] == sep then [""] + rest
      else [[s[0]] + rest[0]] + rest[1..]
  }

  /** `sep.join(pieces)`. */
  function Join(pieces: seq<string>, sep: string): string {
    if pieces == [] then ""
    else if |pieces| == 1 then pieces[0]
    else pieces[0] + sep + Join(pieces[1..], sep)
  }

  /** Where `pieces[k]` starts in `Join(pieces, sep)`. */
  function Offset(pieces: seq<string>, sep: string, k: nat): nat
    requires k < |pieces|
  {
    if k == 0 then 0 else |pieces[0]| + |sep| + Offset(pieces[1..], sep, k - 1)
  }

  lemma OccursFront(x: string, rest: string)
    ensures OccursAt(x + rest, x, 0)
  {
    assert (x + rest)[0..|x|] == x;
  }

  /** An occurrence stays one after a prefix is put in front, shifted by the prefix. */
  lemma OccursShift(pre: string, s: string, sub: string, o: int)
    requires OccursAt(s, sub, o)
    ensures OccursAt(pre + s, sub, |pre| + o)
  {
    assert (pre + s)[|pre| + o..|pre| + o + |sub|] == s[o..o + |sub|];
  }

  /** Each piece sits in the joined text at its offset. */
  lemma {:induction false} JoinPieceAt(pieces: seq<string>, sep: string, k: nat)
    requires k < |pieces|
    ensures OccursAt(Join(pieces, sep), pieces[k], Offset(pieces, sep, k))
  {
    if |pieces| == 1 {
      OccursFront(pieces[0], "");
      assert pieces[0] + "" == pieces[0];
    } else {
      var r := Join(pieces[1..], sep);
      assert Join(pieces, sep) == pieces[0] + sep + r;
      if k == 0 {
        OccursFront(pieces[0], sep + r);
        assert pieces[0] + (sep + r) == pieces[0] + sep + r;
      } else {
        JoinPieceAt(pieces[1..], sep, k - 1);
        assert pieces[1..][k - 1] == pieces[k];
        OccursShift(pieces[0] + sep, r, pieces[k], Offset(pieces[1..], sep, k - 1));
      }
    }
  }

  /** Every piece after the first comes right after a separator. */
  lemma {:induction false} JoinSepBefore(pieces: seq<string>, sep: string, k: nat)
    requires 0 < k < |pieces|
    ensures OccursAt(Join(pieces, sep), sep + pieces[k], Offset(pieces, sep, k) - |sep|)
  {
    var r := Join(pieces[1..], sep);
    assert Join(pieces, sep) == pieces[0] + sep + r;
    if k == 1 {
      JoinPieceAt(pieces[1..], sep, 0);
      var p1 := pieces[1];
      assert pieces[1..][0] == p1;
      var tail := r[|p1|..];
      assert r == p1 + tail;
      OccursFront(sep + p1, tail);
      OccursShift(pieces[0], (sep + p1) + tail, sep + p1, 0);
      assert pieces[0] + ((sep + p1) + tail) == pieces[0] + sep + r;
    } else {
      JoinSepBefore(pieces[1..], sep, k - 1);
      assert pieces[1..][k - 1] == pieces[k];
      OccursShift(pieces[0] + sep, r, sep + pieces[k], Offset(pieces[1..], sep, k - 1) - |sep|);
    }
  }

  /** The next piece starts after this piece and one separator. */
  lemma {:induction false} OffsetStep(pieces: seq<string>, sep: string, k: nat)
    requires k + 1 < |pieces|
    ensures Offset(pieces, sep, k + 1) == Offset(pieces, sep, k) + |pieces[k]| + |sep|
  {
    if k > 0 {
      OffsetStep(pieces[1..], sep, k - 1);
    }
  }

  /** The last piece ends the joined text. */
  lemma {:induction false} JoinEnds(pieces: seq<string>, sep: string)
    requires pieces != []
    ensures Offset(pieces, sep, |pieces| - 1) + |pieces[|pieces| - 1]| == |Join(pieces, sep)|
  {
    if |pieces| > 1 {
      JoinEnds(pieces[1..], sep);
    }
  }

  /** Splitting loses nothing: joining the pieces back gives the original string. */
  lemma {:induction false} JoinSplit(s: string, sep: char)
    ensures Join(Split(s, sep), [sep]) == s
  {
    if s != [] {
      JoinSplit(s[1..], sep);
      var rest := Split(s[1..], sep);
      if s[0] != sep {
        var r := Split(s, sep);
        assert r == [[s[0]] + rest[0]] + rest[1..];
        if |rest| == 1 {
          assert r == [[s[0]] + rest[0]];
        } else {
          assert r[1..] == rest[1..];
          assert Join(r, [sep]) == [s[0]] + (rest[0] + [sep] + Join(rest[1..], [sep]));
        }
      }
    }
  }

  /** The white-space characters stripped by `str.strip()` and `String.prototype.trim()`. */
  predicate IsSpace(c: char) {
    c == ' ' || c == '\t' || c == '\n' || c == '\r' || c == '\U{B}' || c == '\U{C}'
  }

  predicate AllSpace(s: string) {
    forall i :: 0 <= i < |s| ==> IsSpace(s[i])
  }

  /** Neither the first nor the last character is white space. */
  predicate IsStripped(s: string) {
    s == [] || (!IsSpace(s[0]) && !IsSpace(s[|s| - 1]))
  }

  function TrimLeft(s: string): string {
    if s != [] && IsSpace(s[0]) then TrimLeft(s[1..]) else s
  }

  /** `TrimLeft` removes a run of white space from the front, and all of it. */
  lemma {:induction false} TrimLeftSpec(s: string)
    ensures var r := TrimLeft(s);
      |r| <= |s| && r == s[|s| - |r|..] && AllSpace(s[..|s| - |r|]) && (r == [] || !IsSpace(r[0]))
  {
    if s != [] && IsSpace(s[0]) {
      TrimLeftSpec(s[1..]);
      var r := TrimLeft(s);
      assert s[1..][|s| - 1 - |r|..] == s[|s| - |r|..];
      assert s[..|s| - |r|] == [s[0]] + s[1..][..|s| - 1 - |r|];
    }
  }

  function TrimRight(s: string): string {
    if s != [] && IsSpace(s[|s| - 1]) then TrimRight(s[..|s| - 1]) else s
  }

  /** `TrimRight` removes a run of white space from the back, and all of it. */
  lemma {:induction false} TrimRightSpec(s: string)
    ensures var r := TrimRight(s);
      |r| <= |s| && r == s[..|r|] && AllSpace(s[|r|..]) && (r == [] || !IsSpace(r[|r| - 1]))
  {
    if s != [] && IsSpace(s[|s| - 1]) {
      TrimRightSpec(s[..|s| - 1]);
      var r := TrimRight(s);
      assert s[..|s| - 1][..|r|] == s[..|r|];
      assert s[|r|..] == s[..|s| - 1][|r|..] + [s[|s| - 1]];
    }
  }

  /** `s.strip()` / `s.trim()`: `s` with its leading and trailing white space removed. */
  function Strip(s: string): (r: string)
    ensures IsStripped(r) && |r| <= |s|
  {
    TrimLeftSpec(s);
    TrimRightSpec(TrimLeft(s));
    TrimRight(TrimLeft(s))
  }

  /** What `Strip` removes is white space at the two ends, and nothing else. */
  lemma StripInfix(s: string)
    ensures var r := Strip(s);
      exists i :: 0 <= i <= |s| - |r| && s[i..i + |r|] == r && AllSpace(s[..i]) && AllSpace(s[i + |r|..])
  {
    var left := TrimLeft(s);
    var r := TrimRight(left);
    TrimLeftSpec(s);
    TrimRightSpec(left);
    var i := |s| - |left|;
    assert s[i..i + |r|] == r;
    assert s[i + |r|..] == left[|r|..];
  }

  /** Stripping never introduces a character, so a piece without `c` stays without it. */
  lemma StripKeepsAbsent(s: string, c: char)
    requires c !in s
    ensures c !in Strip(s)
  {
    var left := TrimLeft(s);
    TrimLeftSpec(s);
    TrimRightSpec(left);
    assert forall x :: x in left ==> x in s;
    assert forall x :: x in TrimRight(left) ==> x in left;
  }

  /** A string that is already stripped is left alone, so stripping is idempotent. */
  lemma StripStripped(s: string)
    requires IsStripped(s)
    ensures Strip(s) == s
  {
  }

  lemma StripIdempotent(s: string)
    ensures Strip(Strip(s)) == Strip(s)
  {
    StripStripped(Strip(s));
  }

  function StripAll(pieces: seq<string>): (r: seq<string>)
    ensures |r| == |pieces|
    ensures forall k :: 0 <= k < |pieces| ==> r[k] == Strip(pieces[k])
  {
    if pieces == [] then [] else [Strip(pieces[0])] + StripAll(pieces[1..])
  }

  /**
   * `[x.strip() for x in pieces if x.strip()]` and
   * `pieces.map(x => x.trim()).filter(x => x)`: the stripped pieces that are not empty.
   */
  function Clean(pieces: seq<string>): seq<string> {
    if pieces == [] then []
    else if Strip(pieces[0]) != "" then [Strip(pieces[0])] + Clean(pieces[1..])
    else Clean(pieces[1..])
  }

  lemma {:induction false} CleanShape(pieces: seq<string>)
    ensures |Clean(pieces)| <= |pieces|
    ensures forall x :: x in Clean(pieces) ==> x != "" && IsStripped(x)
  {
    if pieces != [] {
      CleanShape(pieces[1..]);
    }
  }

  /** `Clean` keeps the stripped pieces in their order, dropping only blank ones. */
  lemma {:induction false} CleanOrder(pieces: seq<string>)
    ensures Subseq(Clean(pieces), StripAll(pieces))
  {
    if pieces != [] {
      CleanOrder(pieces[1..]);
      var sa := StripAll(pieces);
      assert sa[0] == Strip(pieces[0]) && sa[1..] == StripAll(pieces[1..]);
      if Strip(pieces[0]) == "" {
        SubseqSkip(Clean(pieces[1..]), sa);
      }
    }
  }

  lemma {:induction false} CleanKeepsAbsent(pieces: seq<string>, c: char)
    requires forall p :: p in pieces ==> c !in p
    ensures forall x :: x in Clean(pieces) ==> c !in x
  {
    if pieces != [] {
      StripKeepsAbsent(pieces[0], c);
      CleanKeepsAbsent(pieces[1..], c);
    }
  }

  /** Cleaning a concatenation cleans each part. */
  lemma {:induction false} CleanConcat(p: seq<string>, q: seq<string>)
    ensures Clean(p + q) == Clean(p) + Clean(q)
  {
    if p == [] {
      assert p + q == q;
    } else {
      var pq := p + q;
      assert pq[0] == p[0] && pq[1..] == p[1..] + q;
      var head := if Strip(p[0]) != "" then [Strip(p[0])] else [];
      assert Clean(pq) == head + Clean(p[1..] + q);
      assert Clean(p) == head + Clean(p[1..]);
      CleanConcat(p[1..], q);
    }
  }

  /** Every non-blank piece survives, stripped. */
  lemma {:induction false} CleanComplete(pieces: seq<string>)
    ensures forall p :: p in pieces && Strip(p) != "" ==> Strip(p) in Clean(pieces)
  {
    if pieces != [] {
      CleanComplete(pieces[1..]);
      assert forall p :: p in pieces ==> p == pieces[0] || p in pieces[1..];
    }
  }

  /** Every non-blank piece survives, stripped, as many times as its stripped form occurs among the pieces. */
  lemma CleanCompleteCounts(pieces: seq<string>)
    ensures forall p :: p in pieces && Strip(p) != "" ==>
      multiset(Clean(pieces))[Strip(p)] == multiset(StripAll(pieces))[Strip(p)] > 0
  {
    CleanCounts(pieces);
    forall p | p in pieces && Strip(p) != "" ensures multiset(StripAll(pieces))[Strip(p)] > 0 {
      var k :| 0 <= k < |pieces| && pieces[k] == p;
      assert StripAll(pieces)[k] == Strip(p);
    }
  }

  predicate NonBlank(x: string) { x != "" }

  /**
   * `Clean` is exactly the filter of the stripped pieces on non-emptiness:
   * only blank pieces are dropped, and every other piece is kept, each copy
   * of it, in order.
   */
  lemma {:induction false} CleanIsFilter(pieces: seq<string>)
    ensures Clean(pieces) == Filter(StripAll(pieces), NonBlank)
  {
    if pieces != [] {
      CleanIsFilter(pieces[1..]);
      var sa := StripAll(pieces);
      assert sa[0] == Strip(pieces[0]) && sa[1..] == StripAll(pieces[1..]);
      assert sa != [];
    }
  }

  /** Each non-empty stripped piece survives as many times as it occurs; the empty string never does. */
  lemma CleanCounts(pieces: seq<string>)
    ensures forall x :: multiset(Clean(pieces))[x] == if x == "" then 0 else multiset(StripAll(pieces))[x]
  {
    CleanIsFilter(pieces);
  }

  /** Cleaning yields nothing exactly when every piece is blank once stripped. */
  lemma {:induction false} CleanEmpty(pieces: seq<string>)
    ensures Clean(pieces) == [] <==> forall p :: p in pieces ==> Strip(p) == ""
  {
    if pieces != [] {
      CleanEmpty(pieces[1..]);
      assert forall p :: p in pieces <==> p == pieces[0] || p in pieces[1..];
    }
  }

  /**
   * Split `s` on `sep`, strip every piece and drop the empty ones; order is kept.
   * `parse_list` splits on "," and the onboarding form on newlines.
   */
  function CleanList(s: string, sep: char): seq<string> {
    Clean(Split(s, sep))
  }

  /**
   * The cleaned list has no more items than there are pieces; each item is
   * non-empty, stripped and free of the separator; the items keep their order.
   */
  lemma CleanListShape(s: string, sep: char)
    ensures var r := CleanList(s, sep);
      |r| <= Count(s, sep) + 1
      && (forall x :: x in r ==> x != "" && IsStripped(x) && sep !in x)
      && Subseq(r, StripAll(Split(s, sep)))
      && r == Filter(StripAll(Split(s, sep)), NonBlank)
  {
    var pieces := Split(s, sep);
    CleanIsFilter(pieces);
    CleanShape(pieces);
    CleanOrder(pieces);
    CleanKeepsAbsent(pieces, sep);
  }

  /** Text without the separator and with some non-space character gives a one-element list. */
  lemma CleanListSingle(s: string, sep: char)
    requires sep !in s && Strip(s) != ""
    ensures CleanList(s, sep) == [Strip(s)]
  {
    SplitAbsent(s, sep);
    CleanSingle(s);
  }

  /** A single non-blank piece cleans to itself, stripped. */
  lemma CleanSingle(p: string)
    requires Strip(p) != ""
    ensures Clean([p]) == [Strip(p)]
  {
    assert [p][1..] == [];
  }

  /** Without a separator there is exactly one piece: the whole string. */
  lemma {:induction false} SplitAbsent(s: string, sep: char)
    requires sep !in s
    ensures Split(s, sep) == [s]
  {
    if s != [] {
      SplitAbsent(s[1..], sep);
      assert [s[0]] + s[1..] == s;
    }
  }

  lemma {:induction false} BlankStrips(s: string)
    requires AllSpace(s)
    ensures TrimLeft(s) == "" && Strip(s) == ""
  {
    if s != [] {
      assert IsSpace(s[0]);
      BlankStrips(s[1..]);
    }
  }
}
