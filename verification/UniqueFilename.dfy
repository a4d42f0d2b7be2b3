/** Finding a file name that is not taken, by counting up a numeric suffix. */
module UniqueFilename {
  import opened Options

  // ----- Machine integers -----

  const TWO63 := 0x8000_0000_0000_0000
  const TWO64 := 0x1_0000_0000_0000_0000

  predicate IsInt(x: int) {
    -TWO63 <= x < TWO63
  }

  /** The sum of two 64-bit ints, which wraps around. */
  function AddInt(a: int, b: int): (r: int)
    ensures IsInt(a) && IsInt(b) ==> IsInt(r)
  {
    if a + b >= TWO63 then a + b - TWO64 else if a + b < -TWO63 then a + b + TWO64 else a + b
  }

  // ----- Decimal numbers -----

  predicate IsDigit(c: char) {
    '0' <= c <= '9'
  }

  predicate AllDigits(s: string) {
    forall i :: 0 <= i < |s| ==> IsDigit(s[i])
  }

  function Digit(d: int): (c: char)
    requires 0 <= d < 10
    ensures IsDigit(c)
  {
    '0' + d as char
  }

  function DigitsOf(n: nat): string {
    if n < 10 then [Digit(n)] else DigitsOf(n / 10) + [Digit(n % 10)]
  }

  /** %d */
  function Decimal(n: int): string {
    if n < 0 then "-" + DigitsOf(-n) else DigitsOf(n)
  }

  function ValueOf(s: string): int {
    if s == "" then 0 else ValueOf(s[..|s| - 1]) * 10 + s[|s| - 1] as int - '0' as int
  }

  function Unsigned(s: string): Option<int> {
    if s != "" && AllDigits(s) then Some(ValueOf(s)) else None
  }

  /** strconv.Atoi: an optional sign, at least one digit, and a value that fits into an int. */
  function Atoi(s: string): Option<int> {
    var signed := s != "" && (s[0] == '-' || s[0] == '+');
    match Unsigned(if signed then s[1..] else s)
    case None => None
    case Some(n) =>
      var v := if signed && s[0] == '-' then -n else n;
      if IsInt(v) then Some(v) else None
  }

  lemma {:induction false} DigitsReadBack(n: nat)
    ensures DigitsOf(n) != "" && AllDigits(DigitsOf(n)) && ValueOf(DigitsOf(n)) == n
  {
    if n >= 10 {
      DigitsReadBack(n / 10);
      var s := DigitsOf(n);
      assert s[..|s| - 1] == DigitsOf(n / 10);
    }
  }

  lemma UnsignedReadsBack(n: nat)
    ensures Unsigned(DigitsOf(n)) == Some(n) && IsDigit(DigitsOf(n)[0])
  {
    DigitsReadBack(n);
  }

  /** What is printed reads back as the same number. */
  lemma DecimalReadsBack(n: int)
    requires IsInt(n)
    ensures Atoi(Decimal(n)) == Some(n)
  {
    if n < 0 {
      UnsignedReadsBack(-n);
      var digits := DigitsOf(-n);
      assert ("-" + digits)[1..] == digits;
    } else {
      UnsignedReadsBack(n);
    }
  }

  /** What Atoi reads, and what it refuses: an optional sign and decimal digits, at least one, within 64 bits. */
  lemma AtoiIff(s: string)
    ensures var body := if s != "" && s[0] in "-+" then s[1..] else s;
      var v := if s != "" && s[0] == '-' then -ValueOf(body) else ValueOf(body);
      var numeral := body != "" && forall i :: 0 <= i < |body| ==> '0' <= body[i] <= '9';
      Atoi(s) == if numeral && -9_223_372_036_854_775_808 <= v <= 9_223_372_036_854_775_807 then Some(v) else None
  {
    assert s != "" ==> (s[0] in "-+" <==> s[0] == '-' || s[0] == '+');
  }

  lemma {:induction false} DigitsStart(n: nat)
    ensures DigitsOf(n) != "" && (DigitsOf(n)[0] == '0' <==> n == 0)
  {
    if n >= 10 {
      DigitsStart(n / 10);
    }
  }

  /** Printing adds no plus sign, a minus sign exactly to negative numbers, and no zero in front. */
  lemma DecimalIsCanonical(n: int)
    ensures var s := Decimal(n);
      && s != "" && s[0] != '+' && (s[0] == '-' <==> n < 0)
      && (s[0] == '0' ==> s == "0")
      && (n < 0 ==> |s| > 1 && s[1] != '0')
  {
    DigitsStart(if n < 0 then -n else n);
    DigitsReadBack(if n < 0 then -n else n);
  }

  // ----- Names -----

  /** The position of the first `c`, or the length. */
  function First(s: string, c: char): (i: nat)
    ensures i <= |s|
  {
    if s == "" || s[0] == c then 0 else First(s[1..], c) + 1
  }

  lemma {:induction false} FirstFinds(s: string, c: char)
    ensures var i := First(s, c); c !in s[..i] && (i < |s| ==> s[i] == c)
  {
    if s != "" && s[0] != c {
      FirstFinds(s[1..], c);
      var i := First(s[1..], c);
      assert s[..i + 1] == [s[0]] + s[1..][..i];
    }
  }

  lemma {:induction false} FirstIs(s: string, c: char, rest: string)
    requires c !in s && (rest == "" || rest[0] == c)
    ensures First(s + rest, c) == |s|
  {
    if s == "" {
      assert s + rest == rest;
    } else {
      assert (s + rest)[1..] == s[1..] + rest && (s + rest)[0] == s[0];
      FirstIs(s[1..], c, rest);
    }
  }

  /** The name up to the first dot, and the rest with the dot. */
  function Stem(f: string): string {
    f[..First(f, '.')]
  }

  function Extension(f: string): string {
    f[First(f, '.')..]
  }

  function Numbered(stem: string, n: int, extension: string): string {
    stem + "_" + Decimal(n) + extension
  }

  function IncrementString(str: string, first: int): string {
    if str == "" then ""
    else
      var step := if first <= 0 then 1 else first;
      var name, extension := Stem(str), Extension(str);
      var j := First(name, '_');
      if j < |name| then
        match Atoi(name[j + 1..])
        case None => ""
        case Some(i) => Numbered(name[..j], AddInt(i, step), extension)
      else Numbered(name, step, extension)
  }

  /** The part of a name that stays when it is numbered. */
  function Trunk(f: string): string {
    Stem(f)[..First(Stem(f), '_')]
  }

  /** The number a name starts from: zero without a separator, none if what follows the separator is no number. */
  function Base(f: string): Option<int> {
    var name := Stem(f);
    var j := First(name, '_');
    if j < |name| then Atoi(name[j + 1..]) else Some(0)
  }

  /** Neither a dot nor a separator. */
  predicate Plain(stem: string) {
    '.' !in stem && '_' !in stem
  }

  predicate IsExtension(extension: string) {
    extension == "" || extension[0] == '.'
  }

  lemma DecimalIsPlain(n: int)
    ensures Plain(Decimal(n))
  {
    DigitsReadBack(if n < 0 then -n else n);
  }

  lemma NumberedParts(stem: string, n: int, extension: string)
    requires IsInt(n) && Plain(stem) && IsExtension(extension)
    ensures var s := Numbered(stem, n, extension); var name := stem + "_" + Decimal(n);
      && Stem(s) == name && Extension(s) == extension
      && First(name, '_') == |stem| && name[..|stem|] == stem && name[|stem| + 1..] == Decimal(n)
  {
    var digits := Decimal(n);
    var name := stem + "_" + digits;
    DecimalIsPlain(n);
    assert '.' !in name;
    FirstIs(name, '.', extension);
    FirstIs(stem, '_', "_" + digits);
    assert name == stem + ("_" + digits);
  }

  /** A number added to a numbered name changes the number and nothing else. */
  lemma IncrementNumbered(stem: string, n: int, extension: string, first: int)
    requires IsInt(n) && Plain(stem) && IsExtension(extension)
    ensures Base(Numbered(stem, n, extension)) == Some(n)
    ensures IncrementString(Numbered(stem, n, extension), first)
            == Numbered(stem, AddInt(n, if first <= 0 then 1 else first), extension)
  {
    NumberedParts(stem, n, extension);
    DecimalReadsBack(n);
  }

  // ----- The names tried -----

  /** The loop counter, a 64-bit int, after `k` turns. */
  function Counter(k: nat): int {
    if k == 0 then 0 else AddInt(Counter(k - 1), 1)
  }

  lemma {:induction false} CounterCounts(k: nat)
    requires k < TWO63
    ensures Counter(k) == k
  {
    if k > 0 {
      CounterCounts(k - 1);
    }
  }

  /** The name after number `i` comes from it by the turn of the loop with that counter. */
  ghost predicate Follows(q: seq<string>, i: nat)
    requires i + 1 < |q|
  {
    q[i + 1] == IncrementString(q[i], Counter(i))
  }

  /** `q` are the names tried, in order. */
  ghost predicate Trail(f: string, q: seq<string>) {
    q != [] && q[0] == f && forall i :: 0 <= i < |q| - 1 ==> Follows(q, i)
  }

  lemma FollowsStill(q: seq<string>, t: seq<string>, i: nat)
    requires i + 1 < |q| && i + 1 < |t| && q[i] == t[i] && q[i + 1] == t[i + 1] && Follows(q, i)
    ensures Follows(t, i)
  {
  }

  lemma TrailStill(f: string, q: seq<string>, t: seq<string>)
    requires Trail(f, q) && |t| == |q| + 1 && t[..|q|] == q
    ensures t[0] == f && forall i :: 0 <= i < |q| - 1 ==> Follows(t, i)
  {
    assert forall i :: 0 <= i < |q| ==> t[i] == t[..|q|][i];
    forall i | 0 <= i < |q| - 1 ensures Follows(t, i) {
      assert Follows(q, i);
      FollowsStill(q, t, i);
    }
  }

  lemma TrailGrows(f: string, q: seq<string>, t: seq<string>)
    requires Trail(f, q) && |t| == |q| + 1 && t[..|q|] == q && Follows(t, |q| - 1)
    ensures Trail(f, t)
  {
    TrailStill(f, q, t);
    forall i | 0 <= i < |t| - 1 ensures Follows(t, i) {
      assert i == |q| - 1 || i < |q| - 1;
    }
  }

  /** The suffix of the `k`-th numbered name: one, two, four, seven and so on above the base. */
  function Suffix(base: int, k: nat): int {
    if k == 0 then AddInt(base, 1) else AddInt(Suffix(base, k - 1), k)
  }

  lemma {:induction false} SuffixIsInt(base: int, k: nat)
    requires IsInt(base) && k < TWO63
    ensures IsInt(Suffix(base, k))
  {
    if k > 0 {
      SuffixIsInt(base, k - 1);
    }
  }

  function Triangle(k: nat): nat {
    if k == 0 then 0 else Triangle(k - 1) + k
  }

  lemma TrunkIsPlain(f: string)
    ensures Plain(Trunk(f)) && IsExtension(Extension(f))
  {
    FirstFinds(f, '.');
    FirstFinds(Stem(f), '_');
  }

  lemma FirstIncrement(f: string)
    requires f != ""
    ensures IncrementString(f, 0)
            == if Base(f).Some? then Numbered(Trunk(f), AddInt(Base(f).value, 1), Extension(f)) else ""
  {
    var name := Stem(f);
    if First(name, '_') == |name| {
      assert name[..|name|] == name;
    }
  }

  lemma FirstTried(f: string, q: seq<string>)
    requires Trail(f, q) && f != "" && |q| > 1
    ensures q[1] == if Base(f).Some? then Numbered(Trunk(f), Suffix(Base(f).value, 0), Extension(f)) else ""
  {
    assert Follows(q, 0);
    FirstIncrement(f);
  }

  lemma NextTried(f: string, q: seq<string>, k: nat, stem: string, n: int, extension: string)
    requires IsInt(n) && Plain(stem) && IsExtension(extension)
    requires Trail(f, q) && 0 < k < |q| - 1 && k < TWO63 && q[k] == Numbered(stem, n, extension)
    ensures q[k + 1] == Numbered(stem, AddInt(n, k), extension)
  {
    CounterCounts(k);
    IncrementNumbered(stem, n, extension, k);
    assert Follows(q, k);
  }

  lemma {:induction false} NumbersFollow(f: string, q: seq<string>, k: nat, stem: string, base: int, extension: string)
    requires IsInt(base) && Trail(f, q) && k < |q| - 1 && k < TWO63 && Plain(stem) && IsExtension(extension)
    requires q[1] == Numbered(stem, Suffix(base, 0), extension)
    ensures q[k + 1] == Numbered(stem, Suffix(base, k), extension)
  {
    if k > 0 {
      SuffixIsInt(base, k - 1);
      NumbersFollow(f, q, k - 1, stem, base, extension);
      NextTried(f, q, k, stem, Suffix(base, k - 1), extension);
    }
  }

  /** After the given name come its trunk and extension with the suffixes in between. */
  lemma TriedIsNumbered(f: string, q: seq<string>, k: nat)
    requires Trail(f, q) && k < |q| - 1 && k < TWO63 && f != "" && Base(f).Some?
    ensures q[k + 1] == Numbered(Trunk(f), Suffix(Base(f).value, k), Extension(f))
  {
    FirstTried(f, q);
    TrunkIsPlain(f);
    NumbersFollow(f, q, k, Trunk(f), Base(f).value, Extension(f));
  }

  /** After a name that cannot be numbered comes only the empty name. */
  lemma {:induction false} TriedIsEmpty(f: string, q: seq<string>, k: nat)
    requires Trail(f, q) && k < |q| - 1 && f != "" && Base(f).None?
    ensures q[k + 1] == ""
  {
    if k == 0 {
      FirstTried(f, q);
    } else {
      TriedIsEmpty(f, q, k - 1);
      assert Follows(q, k);
    }
  }

  // ----- No name is tried twice -----

  lemma {:induction false} SuffixIsTriangular(base: int, k: nat) returns (wraps: int)
    requires IsInt(base) && k < TWO63
    ensures IsInt(Suffix(base, k)) && Suffix(base, k) == base + 1 + Triangle(k) + wraps * TWO64
  {
    if k == 0 {
      wraps := if base + 1 >= TWO63 then -1 else 0;
    } else {
      wraps := SuffixIsTriangular(base, k - 1);
      wraps := if Suffix(base, k - 1) + k >= TWO63 then wraps - 1 else wraps;
    }
  }

  lemma {:induction false} TriangleIsProduct(k: nat)
    ensures 2 * Triangle(k) == k * (k + 1)
  {
    if k > 0 {
      TriangleIsProduct(k - 1);
    }
  }

  function Pow2(k: nat): nat {
    if k == 0 then 1 else 2 * Pow2(k - 1)
  }

  lemma OddTimes(h: int, y: int)
    ensures (2 * h + 1) * y == 2 * (h * y) + y
  {
  }

  lemma Halve(x: int, y: int, n: int)
    requires x % 2 == 1 && x * y == 2 * n
    ensures y % 2 == 0 && x * (y / 2) == n
  {
    OddTimes(x / 2, y);
    var z := y / 2;
    assert y == 2 * (n - x / 2 * y);
    assert x * (2 * z) == 2 * (x * z);
  }

  lemma Regroup(r: int, p: int)
    ensures r * (2 * p) == 2 * (r * p)
  {
  }

  /** An odd factor can be cancelled from a multiple of a power of two. */
  lemma {:induction false} OddCancels(x: int, y: int, q: int, k: nat) returns (r: int)
    requires x % 2 == 1 && x * y == q * Pow2(k)
    ensures y == r * Pow2(k)
    decreases k
  {
    if k == 0 {
      r := y;
    } else {
      var p := Pow2(k - 1);
      Regroup(q, p);
      Halve(x, y, q * p);
      r := OddCancels(x, y / 2, q, k - 1);
      Regroup(r, p);
    }
  }

  lemma NotPositive(r: int, p: int)
    requires r <= 0 && p > 0
    ensures r * p <= 0
  {
  }

  lemma MultipleIsLarge(y: int, r: int, p: int)
    requires y > 0 && p > 0 && y == r * p
    ensures y >= p
  {
    if r <= 0 {
      NotPositive(r, p);
      assert false;
    }
  }

  lemma ProductOfGap(a: int, b: int)
    ensures a * (a + 1) - b * (b + 1) == (a - b) * (a + b + 1)
  {
    calc {
      (a - b) * (a + b + 1);
      a * (a + b + 1) - b * (a + b + 1);
      a * a + a * b + a - (b * a + b * b + b);
      a * a + a - (b * b + b);
    }
  }

  lemma {:induction false} Pow2Adds(a: nat, b: nat)
    ensures Pow2(a + b) == Pow2(a) * Pow2(b)
  {
    if a > 0 {
      Pow2Adds(a - 1, b);
      assert 2 * (Pow2(a - 1) * Pow2(b)) == Pow2(a) * Pow2(b);
    }
  }

  lemma Pow2Of65()
    ensures Pow2(65) == 2 * TWO64
  {
    assert Pow2(8) == 256;
    Pow2Adds(8, 8);
    Pow2Adds(16, 16);
    Pow2Adds(32, 32);
    Pow2Adds(1, 64);
  }

  lemma {:induction false} OddAndEven(x: int, y: int, q: int)
    requires x % 2 == 1 && 0 < y < 2 * TWO64
    ensures x * y != q * (2 * TWO64)
  {
    Pow2Of65();
    if x * y == q * Pow2(65) {
      var r := OddCancels(x, y, q, 65);
      MultipleIsLarge(y, r, Pow2(65));
      assert false;
    }
  }

  lemma GapIsNoMultiple(d: int, x: int, y: int, q: int)
    requires 0 < x < y < 2 * TWO64 && x % 2 != y % 2 && 2 * d == x * y
    ensures d != q * TWO64
  {
    if x % 2 == 1 {
      OddAndEven(x, y, q);
    } else {
      OddAndEven(y, x, q);
    }
  }

  lemma DoubleGap(a: nat, b: nat)
    ensures 2 * (Triangle(a) - Triangle(b)) == (a - b) * (a + b + 1)
  {
    TriangleIsProduct(a);
    TriangleIsProduct(b);
    ProductOfGap(a, b);
  }

  lemma TrianglesDiffer(a: nat, b: nat, q: int)
    requires b < a < TWO63
    ensures Triangle(a) - Triangle(b) != q * TWO64
  {
    DoubleGap(a, b);
    GapIsNoMultiple(Triangle(a) - Triangle(b), a - b, a + b + 1, q);
  }

  /** Fewer than 2^63 steps never bring a suffix back, although the suffix itself wraps around. */
  lemma SuffixesDiffer(base: int, a: nat, b: nat)
    requires IsInt(base) && b < a < TWO63
    ensures Suffix(base, a) != Suffix(base, b)
  {
    var v := SuffixIsTriangular(base, a);
    var w := SuffixIsTriangular(base, b);
    TrianglesDiffer(a, b, w - v);
  }

  lemma NumberedDiffers(stem: string, m: int, n: int, extension: string)
    requires IsInt(m) && IsInt(n) && m != n && Plain(stem) && IsExtension(extension)
    ensures Numbered(stem, m, extension) != Numbered(stem, n, extension)
  {
    IncrementNumbered(stem, m, extension, 1);
    IncrementNumbered(stem, n, extension, 1);
  }

  // ----- The search -----

  ghost predicate IsAmong(x: string, stem: string, base: int, extension: string, k: nat) {
    exists j :: 0 <= j < k && x == Numbered(stem, Suffix(base, j), extension)
  }

  lemma NamesDiffer(stem: string, base: int, extension: string, k: nat, j: nat)
    requires IsInt(base) && Plain(stem) && IsExtension(extension) && j < k < TWO63
    ensures Numbered(stem, Suffix(base, k), extension) != Numbered(stem, Suffix(base, j), extension)
  {
    SuffixIsInt(base, k);
    SuffixIsInt(base, j);
    SuffixesDiffer(base, k, j);
    NumberedDiffers(stem, Suffix(base, k), Suffix(base, j), extension);
  }

  lemma NewName(stem: string, base: int, extension: string, k: nat)
    requires IsInt(base) && Plain(stem) && IsExtension(extension) && k < TWO63
    ensures !IsAmong(Numbered(stem, Suffix(base, k), extension), stem, base, extension, k)
  {
    forall j | 0 <= j < k
      ensures Numbered(stem, Suffix(base, k), extension) != Numbered(stem, Suffix(base, j), extension)
    {
      NamesDiffer(stem, base, extension, k, j);
    }
  }

  /** The first `k` numbered names, as long as they are in `files`, are `k` different names. */
  lemma {:induction false} NumberedNames(files: set<string>, stem: string, base: int, extension: string, k: nat)
    returns (names: set<string>)
    requires IsInt(base) && Plain(stem) && IsExtension(extension) && k <= TWO63
    requires forall j :: 0 <= j < k ==> Numbered(stem, Suffix(base, j), extension) in files
    ensures names <= files && |names| == k
    ensures forall x :: x in names ==> IsAmong(x, stem, base, extension, k)
  {
    names := {};
    if k > 0 {
      var before := NumberedNames(files, stem, base, extension, k - 1);
      var x := Numbered(stem, Suffix(base, k - 1), extension);
      NewName(stem, base, extension, k - 1);
      names := before + {x};
    }
  }

  lemma {:induction false} SubsetIsSmaller(a: set<string>, b: set<string>)
    requires a <= b
    ensures |a| <= |b|
  {
    if a != {} {
      var x :| x in a;
      SubsetIsSmaller(a - {x}, b - {x});
    }
  }

  ghost predicate AllTaken(files: set<string>, q: seq<string>) {
    forall j :: 0 <= j < |q| ==> q[j] in files
  }

  /** The search gets stuck: the name is taken and cannot be numbered, and the file system knows the empty name. */
  predicate Stuck(files: set<string>, f: string) {
    f in files && Base(f).None? && "" in files
  }

  /** No more names collide than there are files, besides the given one. */
  lemma CollisionsEnd(files: set<string>, f: string, q: seq<string>)
    requires f != "" && |files| < TWO63 && !Stuck(files, f) && Trail(f, q) && AllTaken(files, q)
    ensures |q| <= |files| + 1
  {
    if |q| > 1 && Base(f).None? {
      assert q[0] in files && q[1] in files;
      TriedIsEmpty(f, q, 0);
      assert false;
    } else if |q| > |files| + 1 {
      forall j | 0 <= j < |files| + 1 ensures Numbered(Trunk(f), Suffix(Base(f).value, j), Extension(f)) in files {
        TriedIsNumbered(f, q, j);
        assert q[j + 1] in files;
      }
      TrunkIsPlain(f);
      var names := NumberedNames(files, Trunk(f), Base(f).value, Extension(f), |files| + 1);
      SubsetIsSmaller(names, files);
      assert false;
    }
  }

  lemma TrailContinues(f: string, p: seq<string>) returns (q: seq<string>)
    requires Trail(f, p)
    ensures Trail(f, q) && |q| == |p| + 1
  {
    var next := IncrementString(p[|p| - 1], Counter(|p| - 1));
    q := p + [next];
    assert Follows(q, |p| - 1);
    TrailGrows(f, p, q);
  }

  lemma {:induction false} TrailOf(f: string, n: nat) returns (q: seq<string>)
    ensures Trail(f, q) && |q| == n + 1
  {
    if n == 0 {
      q := [f];
    } else {
      var p := TrailOf(f, n - 1);
      q := TrailContinues(f, p);
    }
  }

  ghost predicate ReachesFree(files: set<string>, f: string) {
    exists q :: Trail(f, q) && !AllTaken(files, q)
  }

  lemma StuckForever(files: set<string>, f: string, q: seq<string>)
    requires f != "" && Stuck(files, f) && Trail(f, q)
    ensures AllTaken(files, q)
  {
    forall j | 0 <= j < |q| ensures q[j] in files {
      if j > 0 {
        TriedIsEmpty(f, q, j - 1);
      }
    }
  }

  /** A free name is reached if and only if the search is not stuck. */
  lemma FreeNameIffNotStuck(files: set<string>, f: string)
    requires f != "" && |files| < TWO63
    ensures ReachesFree(files, f) <==> !Stuck(files, f)
  {
    if Stuck(files, f) {
      forall q | Trail(f, q) ensures AllTaken(files, q) {
        StuckForever(files, f, q);
      }
    } else {
      var q := TrailOf(f, |files| + 1);
      if AllTaken(files, q) {
        CollisionsEnd(files, f, q);
        assert false;
      }
    }
  }

  /** The search for another name than the taken a_b never ends on a file system that knows the empty name. */
  lemma SearchCanBeStuck()
    ensures Base("a_b").None? && Stuck({"a_b", ""}, "a_b") && !ReachesFree({"a_b", ""}, "a_b")
  {
    var f := "a_b";
    FirstIs(f, '.', "");
    assert f + "" == f && f[..3] == f && Stem(f) == f;
    FirstIs("a", '_', "_b");
    assert "a" + "_b" == f && First(f, '_') == 1 && f[2..] == "b";
    assert "b"[0] == 'b' && !AllDigits("b");
    FreeNameIffNotStuck({f, ""}, f);
  }

  /** `r` is the first name tried that is not taken. */
  ghost predicate FirstFree(files: set<string>, f: string, r: string) {
    exists q :: Trail(f, q + [r]) && AllTaken(files, q) && r !in files
  }

  lemma FirstFreeIsEmptyIff(files: set<string>, f: string, r: string)
    requires f != "" && FirstFree(files, f, r) && |files| < TWO63
    ensures r == "" <==> f in files && Base(f).None?
  {
    var q :| Trail(f, q + [r]) && AllTaken(files, q) && r !in files;
    var t := q + [r];
    assert t[0] == f;
    if |q| > 0 {
      assert q[0] in files && t[|q|] == r;
      if Base(f).None? {
        TriedIsEmpty(f, t, |q| - 1);
      } else {
        assert Trail(f, q) by {
          forall i | 0 <= i < |q| - 1 ensures Follows(q, i) {
            assert Follows(t, i);
          }
        }
        CollisionsEnd(files, f, q);
        TriedIsNumbered(f, t, |q| - 1);
        assert '_' in r;
      }
    }
  }

  /** The result is the first free name: the given one or that with a new number. It is empty exactly for the empty name
      and for a taken name that cannot be numbered. */
  method UniqueFilename(files: set<string>, f: string) returns (r: string)
    requires |files| < TWO63
    requires f != "" ==> !Stuck(files, f)
    ensures f != "" ==> FirstFree(files, f, r)
    ensures r == "" <==> f == "" || (f in files && Base(f).None?)
  {
    if f == "" {
      return f;
    }
    r := f;
    var i := 0;
    ghost var q: seq<string> := [];
    while r in files
      invariant Trail(f, q + [r]) && AllTaken(files, q) && |q| <= |files| + 1 && i == Counter(|q|)
      decreases |files| + 1 - |q|
    {
      CollisionsEnd(files, f, q + [r]);
      ghost var t := q + [r];
      r := IncrementString(r, i);
      assert Follows(t + [r], |q|);
      TrailGrows(f, t, t + [r]);
      q := t;
      i := AddInt(i, 1);
    }
    FirstFreeIsEmptyIff(files, f, r);
  }
}
