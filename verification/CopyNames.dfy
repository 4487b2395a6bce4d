/** The names under which conflicting local files are kept. */
module CopyNames {
  import opened Events

  /** Position of the last `.` in a name (`str::rfind`). */
  function LastDot(name: string): (r: Option<nat>)
    ensures r.Some? ==> r.value < |name| && name[r.value] == '.' && '.' !in name[r.value + 1..]
    ensures r.None? <==> '.' !in name
  {
    if name == "" then None
    else if name[|name| - 1] == '.' then Some(|name| - 1)
    else
      var r := LastDot(name[..|name| - 1]);
      assert name == name[..|name| - 1] + [name[|name| - 1]];
      assert r.Some? ==> name[r.value + 1..] == name[..|name| - 1][r.value + 1..] + [name[|name| - 1]];
      r
  }

  /** The suffix goes in front of the extension, or at the end of a name without one. */
  function MakeName(name: string, suffix: string): string {
    match LastDot(name)
    case Some(pos) => name[..pos] + "." + suffix + name[pos..]
    case None => name + "." + suffix
  }

  function Digit(d: nat): char
    requires d < 10
  {
    ['0', '1', '2', '3', '4', '5', '6', '7', '8', '9'][d]
  }

  function Decimal(n: nat): (s: string)
    ensures s != ""
  {
    if n < 10 then [Digit(n)] else Decimal(n / 10) + [Digit(n % 10)]
  }

  lemma {:induction false} DecimalLength(n: nat)
    ensures |Decimal(n)| == 1 <==> n < 10
  {
  }

  lemma {:induction false} DecimalInjective(m: nat, n: nat)
    requires Decimal(m) == Decimal(n)
    ensures m == n
  {
    DecimalLength(m);
    DecimalLength(n);
    var a, b := Decimal(m), Decimal(n);
    assert a[|a| - 1] == b[|b| - 1];
    assert m % 10 == n % 10;
    if 10 <= m && 10 <= n {
      assert a[..|a| - 1] == Decimal(m / 10) && b[..|b| - 1] == Decimal(n / 10);
      DecimalInjective(m / 10, n / 10);
    }
  }

  const TAG := "local"
  const COPY_LIMIT := 1000

  /** The suffixes in the order they are tried: the tag, then the tag with 1, 2, 3, … */
  function Suffix(j: nat): string {
    if j == 0 then TAG else TAG + "." + Decimal(j)
  }

  function CopyName(p: Path, j: nat): Path {
    p[..|p| - 1] + [MakeName(p[|p| - 1], Suffix(j))]
  }

  lemma {:induction false} SuffixInjective(i: nat, j: nat)
    requires Suffix(i) == Suffix(j)
    ensures i == j
  {
    assert i != 0 ==> |Suffix(i)| > |TAG|;
    assert j != 0 ==> |Suffix(j)| > |TAG|;
    if i != 0 && j != 0 {
      assert Suffix(i)[|TAG| + 1..] == Decimal(i) && Suffix(j)[|TAG| + 1..] == Decimal(j);
      DecimalInjective(i, j);
    }
  }

  lemma {:induction false} MakeNameInjective(name: string, a: string, b: string)
    requires MakeName(name, a) == MakeName(name, b)
    ensures a == b
  {
    match LastDot(name)
    case Some(pos) =>
      var x, y := MakeName(name, a), MakeName(name, b);
      assert |a| == |b|;
      assert a == x[pos + 1..pos + 1 + |a|] && b == y[pos + 1..pos + 1 + |b|];
    case None =>
      assert a == MakeName(name, a)[|name| + 1..] && b == MakeName(name, b)[|name| + 1..];
  }

  /** The number that a numeral spells. */
  function ValueOf(s: string): int {
    if s == "" then 0 else 10 * ValueOf(s[..|s| - 1]) + (s[|s| - 1] as int - '0' as int)
  }

  lemma {:induction false} DecimalSpells(n: nat)
    ensures ValueOf(Decimal(n)) == n
  {
    if n < 10 {
      assert Decimal(n)[..0] == "";
    } else {
      DecimalSpells(n / 10);
      assert Decimal(n)[..|Decimal(n)| - 1] == Decimal(n / 10);
    }
  }

  /** A name is its stem and its extension, which begins at the last dot, if there is one. */
  predicate IsSplit(name: string, stem: string, extension: string) {
    name == stem + extension && '.' !in extension[if extension == "" then 0 else 1..]
    && (if extension == "" then '.' !in name else extension[0] == '.')
  }

  lemma {:induction false} LastDotSplits(name: string, stem: string, extension: string)
    requires IsSplit(name, stem, extension)
    ensures LastDot(name) == if extension == "" then None else Some(|stem|)
  {
    if extension != "" {
      assert name[|stem|] == '.' && name[|stem| + 1..] == extension[1..];
      var r := LastDot(name);
      assert '.' in name;
      assert forall k :: |stem| < k < |name| ==> name[k] == extension[1..][k - |stem| - 1];
    }
  }

  /**
   The copy keeps the directory, the stem and the extension. Between the last two stands `.local`, with a
   number from the second name on.
   */
  lemma {:induction false} CopyKeepsStemAndExtension(p: Path, stem: string, extension: string, j: nat)
    requires IsSplit(p[|p| - 1], stem, extension)
    ensures CopyName(p, j)
         == p[..|p| - 1] + [stem + ".local" + (if j == 0 then "" else "." + Decimal(j)) + extension]
  {
    hide MakeName, IsSplit, Decimal;
    SuffixInFront(p[|p| - 1], stem, extension, Suffix(j));
    var number := if j == 0 then "" else "." + Decimal(j);
    assert Suffix(j) == "local" + number;
    TagInFront(stem, extension, number);
  }

  lemma {:induction false} TagInFront(stem: string, extension: string, number: string)
    ensures stem + "." + ("local" + number) + extension == stem + ".local" + number + extension
  {
    assert "." + "local" == ".local";
    assert stem + "." + ("local" + number) == stem + ("." + "local") + number;
  }

  lemma {:induction false} SuffixInFront(name: string, stem: string, extension: string, suffix: string)
    requires IsSplit(name, stem, extension)
    ensures MakeName(name, suffix) == stem + "." + suffix + extension
  {
    LastDotSplits(name, stem, extension);
    if extension == "" {
      assert stem == name;
      assert name + "." + suffix == name + "." + suffix + "";
    } else {
      assert name[..|stem|] == stem && name[|stem|..] == extension;
    }
  }

  /** Different numbers give different names, none of them the original's. */
  lemma {:induction false} CopyNamesDiffer(p: Path, i: nat, j: nat)
    ensures CopyName(p, i) != p
    ensures i != j ==> CopyName(p, i) != CopyName(p, j)
  {
    var name := p[|p| - 1];
    assert CopyName(p, i)[|p| - 1] == MakeName(name, Suffix(i));
    assert |MakeName(name, Suffix(i))| > |name|;
    if CopyName(p, i) == CopyName(p, j) {
      assert CopyName(p, j)[|p| - 1] == MakeName(name, Suffix(j));
      MakeNameInjective(name, Suffix(i), Suffix(j));
      SuffixInjective(i, j);
    }
  }

  /** The first free name from number `j` on; the first name of all when none is free. */
  function FirstFree(taken: set<Path>, p: Path, j: nat): (n: nat)
    requires j <= COPY_LIMIT
    ensures n < COPY_LIMIT
    ensures CopyName(p, n) in taken ==> n == 0 && forall i :: j <= i < COPY_LIMIT ==> CopyName(p, i) in taken
    ensures CopyName(p, n) !in taken && j <= n ==> forall i :: j <= i < n ==> CopyName(p, i) in taken
    decreases COPY_LIMIT - j
  {
    if j == COPY_LIMIT then 0
    else if CopyName(p, j) !in taken then j
    else FirstFree(taken, p, j + 1)
  }

  function CopyPath(taken: set<Path>, p: Path): Path {
    CopyName(p, FirstFree(taken, p, 0))
  }

  lemma {:induction false} CopyPathDiffers(taken: set<Path>, p: Path)
    ensures CopyPath(taken, p) != p
  {
    CopyNamesDiffer(p, FirstFree(taken, p, 0), 0);
  }
}
