/** Small shared vocabulary: optional columns, results, sums over finite sets of
    row ids, and the decimal rendering of ids used in request ids. */
module Support {

  datatype Option<+T> = None | Some(value: T)

  datatype Result<+R, +E> = Ok(value: R) | Err(error: E)

  /** A row id (a 64-bit snowflake in the database). */
  datatype Id = Id(value: int)

  ghost function Elems<T>(s: seq<T>): set<T> {
    set x | x in s
  }

  /** The sum of `f` over a finite set of row ids. */
  ghost function Sum(s: set<Id>, f: Id -> int): int
    decreases |s|
  {
    if x :| x in s then f(x) + Sum(s - {x}, f) else 0
  }

  /** `Sum` does not depend on the order in which rows are taken. */
  lemma {:induction false} SumTake(s: set<Id>, f: Id -> int, x: Id)
    requires x in s
    ensures Sum(s, f) == f(x) + Sum(s - {x}, f)
    decreases |s|
  {
    var y :| y in s && Sum(s, f) == f(y) + Sum(s - {y}, f);
    if y != x {
      SumTake(s - {y}, f, x);
      SumTake(s - {x}, f, y);
      assert s - {y} - {x} == s - {x} - {y};
    }
  }

  lemma {:induction false} SumUnion(a: set<Id>, b: set<Id>, f: Id -> int)
    requires a !! b
    ensures Sum(a + b, f) == Sum(a, f) + Sum(b, f)
    decreases |a|
  {
    if x :| x in a {
      SumTake(a, f, x);
      SumTake(a + b, f, x);
      assert a + b - {x} == (a - {x}) + b;
      SumUnion(a - {x}, b, f);
    } else {
      assert a + b == b;
    }
  }

  /** Summing two columns row by row is summing them separately. */
  lemma {:induction false} SumSplit(s: set<Id>, f: Id -> int, g: Id -> int, h: Id -> int)
    requires forall x :: x in s ==> f(x) == g(x) + h(x)
    ensures Sum(s, f) == Sum(s, g) + Sum(s, h)
    decreases |s|
  {
    if x :| x in s {
      SumTake(s, f, x);
      SumTake(s, g, x);
      SumTake(s, h, x);
      SumSplit(s - {x}, f, g, h);
    }
  }

  /** A sum can be taken over the rows of another table when every row on one side
      refers to exactly one row on the other and they carry the same amount. */
  lemma {:induction false} SumReindex(a: set<Id>, b: set<Id>, key: Id -> Id, f: Id -> int, g: Id -> int)
    requires forall x :: x in a ==> key(x) in b && f(x) == g(key(x))
    requires forall x, y :: x in a && y in a && key(x) == key(y) ==> x == y
    requires forall z :: z in b ==> exists x :: x in a && key(x) == z
    ensures Sum(a, f) == Sum(b, g)
    decreases |a|
  {
    if x :| x in a {
      SumTake(a, f, x);
      SumTake(b, g, key(x));
      forall z | z in b - {key(x)}
        ensures exists y :: y in a - {x} && key(y) == z
      {
        var y :| y in a && key(y) == z;
        assert y in a - {x};
      }
      SumReindex(a - {x}, b - {key(x)}, key, f, g);
    } else {
      assert b == {};
    }
  }

  /** Changing one member changes a head count by that member alone. */
  lemma OneMember(before: set<Id>, after: set<Id>, t: Id)
    requires forall x :: x != t ==> (x in before <==> x in after)
    ensures |after| == |before| + (if t in after then 1 else 0) - (if t in before then 1 else 0)
  {
    CountWithout(before, t);
    CountWithout(after, t);
    assert before - {t} == after - {t};
  }

  lemma CountWithout(s: set<Id>, t: Id)
    ensures |s| == |s - {t}| + (if t in s then 1 else 0)
  {
    if t in s {
      assert s == (s - {t}) + {t};
    } else {
      assert s == s - {t};
    }
  }

  /** A row id in decimal, as `strconv.FormatInt(id, 10)` prints it. */
  function Decimal(id: Id): string {
    if id.value < 0 then "-" + Digits(-id.value) else Digits(id.value)
  }

  function Digits(n: nat): (s: string)
    ensures s != [] && s[0] != '-'
  {
    if n < 10 then [Digit(n)] else Digits(n / 10) + [Digit(n % 10)]
  }

  function Digit(d: nat): char
    requires d < 10
  {
    '0' + d as char
  }

  lemma {:induction false} DigitsInjective(m: nat, n: nat)
    requires Digits(m) == Digits(n)
    ensures m == n
  {
    var s, t := Digits(m), Digits(n);
    assert s[|s| - 1] == Digit(m % 10) && t[|t| - 1] == Digit(n % 10);
    assert m % 10 == n % 10;
    if m >= 10 && n >= 10 {
      assert s[..|s| - 1] == Digits(m / 10) && t[..|t| - 1] == Digits(n / 10);
      DigitsInjective(m / 10, n / 10);
    }
  }

  /** Different rows print differently. */
  lemma DecimalInjective(a: Id, b: Id)
    requires Decimal(a) == Decimal(b)
    ensures a == b
  {
    var s, t := Decimal(a), Decimal(b);
    assert a.value < 0 <==> s[0] == '-';
    assert b.value < 0 <==> t[0] == '-';
    if a.value < 0 {
      assert s[1..] == Digits(-a.value) && t[1..] == Digits(-b.value);
      DigitsInjective(-a.value, -b.value);
    } else {
      DigitsInjective(a.value, b.value);
    }
  }
}
