/** Shared vocabulary: optional values, fallible results, text helpers and powers.

    A `string` stands for a Go string or byte slice, one `char` per byte.
 */
module Common {

  datatype Option<+T> = None | Some(value: T)

  datatype Result<+T, +E> = Ok(value: T) | Err(error: E)

  // ----- strings.Split and its inverse ------------------------------------

  /** `strings.Split(s, sep)` for a one-byte separator: never empty. */
  function Split(s: string, sep: char): (segs: seq<string>)
    ensures |segs| > 0
  {
    if s == "" then [""]
    else
      var rest := Split(s[1..], sep);
      if s[0] == sep then [""] + rest else [[s[0]] + rest[0]] + rest[1..]
  }

  /** `strings.Join(segs, sep)` for a non-empty list. */
  function Join(segs: seq<string>, sep: char): string
    requires |segs| > 0
  {
    if |segs| == 1 then segs[0] else segs[0] + [sep] + Join(segs[1..], sep)
  }

  /** No segment contains the separator. */
  predicate Unbroken(segs: seq<string>, sep: char) {
    forall i :: 0 <= i < |segs| ==> sep !in segs[i]
  }

  /** How often `c` occurs in `s`. */
  function Occurrences(s: string, c: char): nat {
    if s == "" then 0 else (if s[0] == c then 1 else 0) + Occurrences(s[1..], c)
  }

  lemma {:induction false} JoinSplit(s: string, sep: char)
    ensures Unbroken(Split(s, sep), sep)
    ensures Join(Split(s, sep), sep) == s
    ensures |Split(s, sep)| == Occurrences(s, sep) + 1
  {
    if s != "" {
      JoinSplit(s[1..], sep);
      var rest := Split(s[1..], sep);
      var segs := Split(s, sep);
      if s[0] == sep {
        assert segs[1..] == rest;
        assert s == [s[0]] + s[1..];
      } else {
        assert segs[1..] == rest[1..];
        assert s == [s[0]] + s[1..];
      }
    }
  }

  lemma {:induction false} SplitPrefix(head: string, s: string, sep: char)
    requires sep !in head
    ensures Split(head + s, sep) == [head + Split(s, sep)[0]] + Split(s, sep)[1..]
  {
    if head == "" {
      assert head + s == s;
      assert head + Split(s, sep)[0] == Split(s, sep)[0];
    } else {
      assert (head + s)[1..] == head[1..] + s;
      SplitPrefix(head[1..], s, sep);
      assert [head[0]] + (head[1..] + Split(s, sep)[0]) == head + Split(s, sep)[0];
    }
  }

  lemma {:induction false} SplitJoin(segs: seq<string>, sep: char)
    requires |segs| > 0 && Unbroken(segs, sep)
    ensures Split(Join(segs, sep), sep) == segs
  {
    if |segs| == 1 {
      SplitPrefix(segs[0], "", sep);
      assert segs[0] + "" == segs[0];
    } else {
      SplitJoin(segs[1..], sep);
      var rest := Join(segs[1..], sep);
      var t := [sep] + rest;
      assert t[1..] == rest;
      assert Split(t, sep) == [""] + segs[1..];
      SplitPrefix(segs[0], t, sep);
      assert segs[0] + t == segs[0] + [sep] + rest;
      assert segs[0] + "" == segs[0];
    }
  }

  // ----- strings.TrimSpace -------------------------------------------------

  /** ASCII white space, as `strings.TrimSpace` removes it. */
  predicate IsSpace(c: char) {
    c == ' ' || c == '\t' || c == '\n' || c == '\U{0B}' || c == '\U{0C}' || c == '\r'
  }

  function TrimLeft(s: string): string {
    if s != "" && IsSpace(s[0]) then TrimLeft(s[1..]) else s
  }

  function TrimRight(s: string): string {
    if s != "" && IsSpace(s[|s| - 1]) then TrimRight(s[..|s| - 1]) else s
  }

  /** `strings.TrimSpace`. */
  function TrimSpace(s: string): string { TrimRight(TrimLeft(s)) }

  /** White space and nothing else. */
  predicate IsBlank(s: string) { forall i :: 0 <= i < |s| ==> IsSpace(s[i]) }

  lemma {:induction false} TrimLeftBlank(blank: string, s: string)
    requires IsBlank(blank)
    ensures TrimLeft(blank + s) == TrimLeft(s)
  {
    if blank == "" {
      assert blank + s == s;
    } else {
      assert (blank + s)[1..] == blank[1..] + s;
      TrimLeftBlank(blank[1..], s);
    }
  }

  lemma {:induction false} TrimRightBlank(s: string, blank: string)
    requires IsBlank(blank)
    ensures TrimRight(s + blank) == TrimRight(s)
  {
    if blank == "" {
      assert s + blank == s;
    } else {
      assert (s + blank)[..|s + blank| - 1] == s + blank[..|blank| - 1];
      TrimRightBlank(s, blank[..|blank| - 1]);
    }
  }

  lemma {:induction false} TrimLeftSuffix(s: string) returns (blank: string)
    ensures IsBlank(blank) && s == blank + TrimLeft(s)
    ensures TrimLeft(s) != "" ==> !IsSpace(TrimLeft(s)[0])
  {
    if s != "" && IsSpace(s[0]) {
      var b := TrimLeftSuffix(s[1..]);
      blank := [s[0]] + b;
    } else {
      blank := "";
    }
  }

  lemma {:induction false} TrimRightKeepsHead(s: string)
    requires s != "" && !IsSpace(s[0])
    ensures TrimRight(s) != ""
  {
    if IsSpace(s[|s| - 1]) {
      TrimRightKeepsHead(s[..|s| - 1]);
    }
  }

  /** Trimming leaves nothing exactly when there was only white space. */
  lemma TrimBlank(s: string)
    ensures TrimSpace(s) == "" <==> IsBlank(s)
  {
    if IsBlank(s) {
      TrimLeftBlank(s, "");
      assert s + "" == s;
    } else {
      var blank := TrimLeftSuffix(s);
      assert blank + "" == blank;
      TrimRightKeepsHead(TrimLeft(s));
    }
  }

  /** Text that neither starts nor ends with white space is left alone. */
  lemma TrimNothing(s: string)
    requires s != "" && !IsSpace(s[0]) && !IsSpace(s[|s| - 1])
    ensures TrimSpace(s) == s
  {
  }

  /** Text that neither starts nor ends with white space, if there is any. */
  predicate Tight(s: string) { s == "" || (!IsSpace(s[0]) && !IsSpace(s[|s| - 1])) }

  lemma {:induction false} TrimRightSuffix(s: string) returns (blank: string)
    ensures IsBlank(blank) && s == TrimRight(s) + blank
    ensures TrimRight(s) != "" ==> !IsSpace(TrimRight(s)[|TrimRight(s)| - 1])
  {
    if s != "" && IsSpace(s[|s| - 1]) {
      var b := TrimRightSuffix(s[..|s| - 1]);
      blank := b + [s[|s| - 1]];
    } else {
      blank := "";
    }
  }

  /** What trimming takes off: white space before and after, and all of it. */
  lemma TrimSplit(s: string) returns (before: string, after: string)
    ensures IsBlank(before) && IsBlank(after) && s == before + TrimSpace(s) + after && Tight(TrimSpace(s))
  {
    before := TrimLeftSuffix(s);
    after := TrimRightSuffix(TrimLeft(s));
    if TrimSpace(s) != "" {
      assert TrimLeft(s)[0] == TrimSpace(s)[0];
    }
  }

  lemma TrimExact(before: string, mid: string, after: string)
    requires IsBlank(before) && IsBlank(after) && Tight(mid)
    ensures TrimSpace(before + mid + after) == mid
  {
    if mid == "" {
      assert before + mid + after == before + after;
      TrimBlank(before + after);
    } else {
      TrimAfterBlank(before, mid + after);
      assert before + mid + after == before + (mid + after);
      assert (mid + after)[0] == mid[0];
      TrimRightBlank(mid, after);
    }
  }

  /** Leading white space does not change what trimming leaves. */
  lemma TrimAfterBlank(blank: string, s: string)
    requires IsBlank(blank)
    ensures TrimSpace(blank + s) == TrimSpace(s)
  {
    TrimLeftBlank(blank, s);
  }

  // ----- arithmetic --------------------------------------------------------

  function Pow(b: nat, e: nat): nat {
    if e == 0 then 1 else b * Pow(b, e - 1)
  }

  lemma {:induction false} PowPositive(b: nat, e: nat)
    requires b > 0
    ensures Pow(b, e) > 0
  {
    if e > 0 {
      PowPositive(b, e - 1);
    }
  }

  lemma {:induction false} PowMonotone(a: nat, b: nat, e: nat)
    requires a <= b
    ensures Pow(a, e) <= Pow(b, e)
  {
    if e > 0 {
      PowMonotone(a, b, e - 1);
      MulMonotone(a, b, Pow(a, e - 1), Pow(b, e - 1));
    }
  }

  lemma MulMonotone(a: nat, b: nat, x: nat, y: nat)
    requires a <= b && x <= y
    ensures a * x <= b * y
  {
    assert a * x <= a * y;
    assert a * y <= b * y;
  }

  /** Go's integer division: truncation toward zero. */
  function TruncDiv(a: int, b: int): int
    requires b > 0
  {
    if a >= 0 then a / b else -((-a) / b)
  }
}
