/** Shared vocabulary of the backend: optional values, account roles and
    the outcome tag of an HTTP response (the body is not modelled). */
module Common {

  /** A nullable column or a value that may be missing from a payload. */
  datatype Option<T> = None | Some(value: T)

  /** The `role` column of an account (backend/accounts/models.py). */
  datatype Role =
    | Customer
    | Business
    | Admin
    | ItManager
    | ProjectManager
    | Supporter
    | FinancialManager

  /** The three roles that the backend treats as administrators. */
  predicate IsStaff(r: Role)
  {
    r == Admin || r == ItManager || r == ProjectManager
  }

  /** The requesting account: its role and the ids of its business and
      customer profiles, when they exist. */
  datatype User = User(role: Role, businessProfile: Option<int>, customerProfile: Option<int>)

  /** The value of an optional payload key, or `d` when the key is absent. */
  function GetOr<T>(o: Option<T>, d: T): (r: T)
    ensures o.Some? ==> r == o.value
    ensures o.None? ==> r == d
  {
    if o.Some? then o.value else d
  }

  /** Python truthiness of a nullable number: None and zero are false. */
  predicate TruthyReal(x: Option<real>)
  {
    x.Some? && x.value != 0.0
  }

  predicate TruthyInt(x: Option<int>)
  {
    x.Some? && x.value != 0
  }

  /** An ASCII decimal digit. */
  predicate IsDigit(c: char)
  {
    '0' <= c <= '9'
  }

  function DigitChar(d: nat): (c: char)
    requires d < 10
    ensures IsDigit(c) && c as int - '0' as int == d
  {
    ('0' as int + d) as char
  }

  /** The decimal spelling of a natural number, most significant digit first. */
  function NatDecimal(n: nat): (s: string)
    ensures |s| > 0
    ensures forall i :: 0 <= i < |s| ==> IsDigit(s[i])
  {
    if n < 10 then [DigitChar(n)] else NatDecimal(n / 10) + [DigitChar(n % 10)]
  }

  /** HTTP status of a response, as a tag; `ServerError` is an exception
      that escapes the view. */
  datatype Status = Ok | Created | NoContent | BadRequest | Forbidden | NotFound | ServerError

  /** Number of elements of `s` that satisfy `p`, as `filter(...).count()` computes it. */
  function CountWhere<T>(s: seq<T>, p: T -> bool): (n: nat)
    ensures n <= |s|
  {
    if s == [] then 0 else CountWhere(s[..|s| - 1], p) + (if p(s[|s| - 1]) then 1 else 0)
  }

  /** The elements of `s` that satisfy `p`, in order. */
  function Filter<T>(s: seq<T>, p: T -> bool): (r: seq<T>)
    ensures |r| == CountWhere(s, p)
    ensures forall x :: x in r ==> x in s && p(x)
    ensures forall x :: x in s && p(x) ==> x in r
  {
    if s == [] then [] else Filter(s[..|s| - 1], p) + (if p(s[|s| - 1]) then [s[|s| - 1]] else [])
  }

  /** No element satisfies `p`: the count is 0. */
  lemma {:induction false} CountNone<T>(s: seq<T>, p: T -> bool)
    requires forall x :: x in s ==> !p(x)
    ensures CountWhere(s, p) == 0
  {
    if s != [] {
      assert forall x :: x in s[..|s| - 1] ==> x in s;
      CountNone(s[..|s| - 1], p);
      assert s[|s| - 1] in s;
    }
  }

  /** A product with a positive factor has the sign of the other factor. */
  lemma FactorSign(q: real, v: real)
    requires v > 0.0 && q * v >= 0.0
    ensures q >= 0.0
  {
  }

  /** Multiplication distributes over a difference. */
  lemma SubProduct(a: real, b: real, n: real)
    ensures (a - b) * n == a * n - b * n
  {
  }

  /** A product of two non-negative factors is non-negative. */
  lemma ProductNonNegative(a: real, b: real)
    requires a >= 0.0 && b >= 0.0
    ensures a * b >= 0.0
  {
  }

  /** A total between once and five times a positive weight, divided by
      that weight, lies between 1 and 5. */
  lemma MeanWithinOneToFive(p: real, v: real)
    requires v > 0.0 && v <= p <= 5.0 * v
    ensures 1.0 <= p / v <= 5.0
  {
    var r := p / v;
    SubProduct(r, 1.0, v);
    SubProduct(5.0, r, v);
    FactorSign(r - 1.0, v);
    FactorSign(5.0 - r, v);
  }

  /** Two conditions that never hold together and that between them make up
      a third split its count. */
  lemma {:induction false} CountPartition<T>(s: seq<T>, p: T -> bool, q: T -> bool, r: T -> bool)
    requires forall x :: r(x) <==> p(x) || q(x)
    requires forall x :: !(p(x) && q(x))
    ensures CountWhere(s, p) + CountWhere(s, q) == CountWhere(s, r)
  {
    if s != [] {
      CountPartition(s[..|s| - 1], p, q, r);
    }
  }

  /** Two conditions that never hold together, each implying a third, count
      at most as many elements together as the third does. */
  lemma {:induction false} CountDisjoint<T>(s: seq<T>, p: T -> bool, q: T -> bool, r: T -> bool)
    requires forall x :: p(x) ==> r(x)
    requires forall x :: q(x) ==> r(x)
    requires forall x :: !(p(x) && q(x))
    ensures CountWhere(s, p) + CountWhere(s, q) <= CountWhere(s, r)
  {
    if s != [] {
      CountDisjoint(s[..|s| - 1], p, q, r);
    }
  }

  /** `s` is ordered by non-increasing `key`: `order_by('-key')`. */
  predicate SortedDesc<T>(s: seq<T>, key: T -> int)
  {
    forall i, j :: 0 <= i < j < |s| ==> key(s[i]) >= key(s[j])
  }

  /** `x` placed before the first element whose key is at most its own. */
  function InsertDesc<T>(x: T, s: seq<T>, key: T -> int): (r: seq<T>)
    ensures multiset(r) == multiset(s) + multiset{x}
    ensures |r| == |s| + 1
    ensures r[0] == x || (s != [] && r[0] == s[0])
  {
    if s == [] then [x]
    else if key(x) >= key(s[0]) then [x] + s
    else
      assert s == [s[0]] + s[1..];
      [s[0]] + InsertDesc(x, s[1..], key)
  }

  lemma {:induction false} InsertDescSorted<T>(x: T, s: seq<T>, key: T -> int)
    requires SortedDesc(s, key)
    ensures SortedDesc(InsertDesc(x, s, key), key)
  {
    if s != [] && key(x) < key(s[0]) {
      var rest := InsertDesc(x, s[1..], key);
      InsertDescSorted(x, s[1..], key);
      assert rest[0] == x || rest[0] == s[1];
      ConsSorted(s[0], rest, key);
    }
  }

  /** A head whose key is at least that of a sorted tail's head keeps it sorted. */
  lemma ConsSorted<T>(h: T, rest: seq<T>, key: T -> int)
    requires SortedDesc(rest, key)
    requires rest != [] ==> key(h) >= key(rest[0])
    ensures SortedDesc([h] + rest, key)
  {
    var r := [h] + rest;
    forall i, j | 0 <= i < j < |r|
      ensures key(r[i]) >= key(r[j])
    {
      if i == 0 {
        assert r[j] == rest[j - 1];
        assert key(rest[0]) >= key(rest[j - 1]);
      } else {
        assert r[i] == rest[i - 1] && r[j] == rest[j - 1];
      }
    }
  }

  /** The elements of `s` ordered by non-increasing `key`. */
  function SortDesc<T>(s: seq<T>, key: T -> int): (r: seq<T>)
    ensures SortedDesc(r, key)
    ensures multiset(r) == multiset(s)
  {
    if s == [] then []
    else
      assert s == [s[0]] + s[1..];
      var rest := SortDesc(s[1..], key);
      InsertDescSorted(s[0], rest, key);
      InsertDesc(s[0], rest, key)
  }

  /** A prefix of a sequence sorted by descending key holds its top keys:
      every element left out has a key no larger than any element kept. */
  lemma SortedPrefixIsTop<T>(s: seq<T>, key: T -> int, n: nat)
    requires SortedDesc(s, key) && n <= |s|
    ensures forall x, y :: x in s[..n] && y in s && y !in s[..n] ==> key(y) <= key(x)
  {
    forall x, y | x in s[..n] && y in s && y !in s[..n]
      ensures key(y) <= key(x)
    {
      var i :| 0 <= i < n && s[..n][i] == x;
      var k :| 0 <= k < |s| && s[k] == y;
    }
  }

  /** Two sequences with the same multiset have the same length and the
      same members. */
  lemma SameElements<T>(a: seq<T>, b: seq<T>)
    requires multiset(a) == multiset(b)
    ensures |a| == |b|
    ensures forall x :: x in a <==> x in b
  {
    assert |a| == |multiset(a)|;
    assert forall x :: x in a <==> x in multiset(b);
  }

  /** No element occurs twice. */
  predicate Distinct<T(==)>(s: seq<T>)
  {
    forall i, j :: 0 <= i < j < |s| ==> s[i] != s[j]
  }

  /** Two duplicate-free sequences with no element in common concatenate
      to a duplicate-free sequence. */
  lemma DistinctAppend<T>(a: seq<T>, b: seq<T>)
    requires Distinct(a) && Distinct(b)
    requires forall x :: x in a ==> x !in b
    ensures Distinct(a + b)
  {
    forall i, j | 0 <= i < j < |a + b|
      ensures (a + b)[i] != (a + b)[j]
    {
      if j < |a| {
        assert (a + b)[i] == a[i] && (a + b)[j] == a[j];
      } else if i < |a| {
        assert (a + b)[i] == a[i] && a[i] in a;
        assert (a + b)[j] == b[j - |a|];
      } else {
        assert (a + b)[i] == b[i - |a|] && (a + b)[j] == b[j - |a|];
      }
    }
  }

  /** Filtering keeps a sequence duplicate-free. */
  lemma {:induction false} FilterDistinct<T>(s: seq<T>, p: T -> bool)
    requires Distinct(s)
    ensures Distinct(Filter(s, p))
  {
    if s != [] {
      var init := s[..|s| - 1];
      assert Distinct(init);
      FilterDistinct(init, p);
      if p(s[|s| - 1]) {
        assert s[|s| - 1] !in init;
        DistinctAppend(Filter(init, p), [s[|s| - 1]]);
      }
    }
  }

  /** No two rows of `rows` share a key: a `unique_together` constraint. */
  predicate UniqueBy<T, K(==)>(rows: seq<T>, key: T -> K)
  {
    forall i, j :: 0 <= i < j < |rows| ==> key(rows[i]) != key(rows[j])
  }

  /** Inserting `row` into a table with a uniqueness constraint on `key`: the
      database refuses it (None, an integrity error) when the key is taken. */
  function InsertUnique<T, K(==)>(rows: seq<T>, row: T, key: T -> K): (r: Option<seq<T>>)
    ensures r.None? <==> exists i :: 0 <= i < |rows| && key(rows[i]) == key(row)
    ensures r.Some? ==> r.value == rows + [row]
    ensures r.Some? && UniqueBy(rows, key) ==> UniqueBy(r.value, key)
  {
    if exists i :: 0 <= i < |rows| && key(rows[i]) == key(row) then None else Some(rows + [row])
  }

  // ---- Python's str.strip() ----

  /** The characters Python's `str.isspace()` accepts, which `str.strip()`
      and `int()` trim: tab to carriage return, the file, group, record and
      unit separators, space, next line, no-break space, the Ogham space
      mark, the spaces U+2000 to U+200A, the line and paragraph
      separators, the narrow no-break and medium mathematical spaces, and
      the ideographic space. */
  predicate IsSpace(c: char)
  {
    var n := c as int;
    0x09 <= n <= 0x0D || 0x1C <= n <= 0x20 || n == 0x85 || n == 0xA0 || n == 0x1680
    || 0x2000 <= n <= 0x200A || n == 0x2028 || n == 0x2029 || n == 0x202F || n == 0x205F || n == 0x3000
  }

  function StripLeft(s: string): (t: string)
    ensures t == [] || !IsSpace(t[0])
    ensures s == [] || !IsSpace(s[0]) ==> t == s
  {
    if s != [] && IsSpace(s[0]) then StripLeft(s[1..]) else s
  }

  function StripRight(s: string): (t: string)
    ensures t == [] || !IsSpace(t[|t| - 1])
    ensures s == [] || !IsSpace(s[|s| - 1]) ==> t == s
  {
    if s != [] && IsSpace(s[|s| - 1]) then StripRight(s[..|s| - 1]) else s
  }

  /** Stripping keeps every character of the result from the input. */
  lemma {:induction false} StrippedIsInfix(s: string)
    ensures forall c :: c in StripRight(StripLeft(s)) ==> c in s
  {
    StripLeftInfix(s);
    StripRightInfix(StripLeft(s));
  }

  lemma {:induction false} StripLeftInfix(s: string)
    ensures forall c :: c in StripLeft(s) ==> c in s
  {
    if s != [] && IsSpace(s[0]) {
      StripLeftInfix(s[1..]);
    }
  }

  lemma {:induction false} StripRightInfix(s: string)
    ensures forall c :: c in StripRight(s) ==> c in s
  {
    if s != [] && IsSpace(s[|s| - 1]) {
      StripRightInfix(s[..|s| - 1]);
    }
  }

  /** `s.strip()`: surrounding whitespace removed. */
  function Strip(s: string): (t: string)
    ensures forall c :: c in t ==> c in s
  {
    StrippedIsInfix(s);
    StripRight(StripLeft(s))
  }

  /** A string strips to nothing exactly when all of it is whitespace. */
  lemma StripBlank(s: string)
    ensures Strip(s) == [] <==> forall i :: 0 <= i < |s| ==> IsSpace(s[i])
  {
    StripLeftBlank(s);
    if StripLeft(s) != [] {
      StripRightKeepsHead(StripLeft(s));
    }
  }

  lemma {:induction false} StripLeftBlank(s: string)
    ensures StripLeft(s) == [] <==> forall i :: 0 <= i < |s| ==> IsSpace(s[i])
  {
    if s != [] && IsSpace(s[0]) {
      StripLeftBlank(s[1..]);
      assert forall i :: 1 <= i < |s| ==> s[i] == s[1..][i - 1];
    }
  }

  lemma {:induction false} StripRightKeepsHead(s: string)
    requires s != [] && !IsSpace(s[0])
    ensures StripRight(s) != []
  {
    if IsSpace(s[|s| - 1]) {
      StripRightKeepsHead(s[..|s| - 1]);
    }
  }

  /** The first row whose primary key is `pk`, as a lookup by key in a
      queryset; None is the 404. */
  function FindById<T>(s: seq<T>, id: T -> int, pk: int): (r: Option<T>)
    ensures r.Some? ==> r.value in s && id(r.value) == pk
    ensures r.None? <==> forall x :: x in s ==> id(x) != pk
  {
    if s == [] then None else if id(s[0]) == pk then Some(s[0]) else FindById(s[1..], id, pk)
  }
}
