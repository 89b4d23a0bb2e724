/** The hand-off of a finished round to the results screen: the missed
 *  multiples travel in the route as `joinToString(",")` and are read back
 *  with `split(",").mapNotNull { it.toIntOrNull() }` (the empty string
 *  giving the empty list); the table argument is clamped with
 *  `maxOf(2, ...)`; the screen lists the missed values as
 *  `sorted().toSet()`. Integers are Kotlin's 32-bit `Int`. */
module Traspaso {

  datatype Option<T> = None | Some(value: T)

  const INT_MIN := -0x8000_0000
  const INT_MAX := 0x7FFF_FFFF

  predicate EsInt(n: int)
  {
    INT_MIN <= n <= INT_MAX
  }

  // ---------------------------------------------------------------------
  // Decimal text
  // ---------------------------------------------------------------------

  predicate EsDigito(c: char)
  {
    '0' <= c <= '9'
  }

  predicate SoloDigitos(s: string)
  {
    forall i :: 0 <= i < |s| ==> EsDigito(s[i])
  }

  function Digito(d: int): (c: char)
    requires 0 <= d <= 9
    ensures EsDigito(c) && c as int - '0' as int == d
  {
    (d + '0' as int) as char
  }

  /** The decimal digits of `n`, most significant first, without leading
   *  zeros. */
  function Decimal(n: nat): (s: string)
    ensures |s| >= 1 && SoloDigitos(s)
  {
    if n < 10 then [Digito(n)] else Decimal(n / 10) + [Digito(n % 10)]
  }

  /** The value of a string of decimal digits, read left to right. */
  function ValorDecimal(s: string): nat
    requires SoloDigitos(s)
  {
    if s == [] then 0
    else ValorDecimal(s[..|s| - 1]) * 10 + (s[|s| - 1] as int - '0' as int)
  }

  lemma {:induction false} DecimalInverso(n: nat)
    ensures ValorDecimal(Decimal(n)) == n
    decreases n
  {
    if n >= 10 {
      var s := Decimal(n);
      assert s[..|s| - 1] == Decimal(n / 10);
      DecimalInverso(n / 10);
    }
  }

  /** `Int.toString()`. */
  function IntToString(n: int): (s: string)
    ensures |s| >= 1 && ',' !in s
    ensures s[0] == '-' <==> n < 0
  {
    if n < 0 then "-" + Decimal(-n) else Decimal(n)
  }

  /** `String.toIntOrNull()`: an optional sign followed by at least one
   *  decimal digit, within the range of `Int`; anything else is null. */
  function ToIntOrNull(s: string): (r: Option<int>)
    ensures r.Some? ==> EsInt(r.value)
  {
    if |s| == 0 then None
    else if s[0] == '-' || s[0] == '+' then
      if |s| == 1 || !SoloDigitos(s[1..]) then None
      else
        var m: int := ValorDecimal(s[1..]);
        var v := if s[0] == '-' then -m else m;
        if EsInt(v) then Some(v) else None
    else if !SoloDigitos(s) then None
    else
      var v := ValorDecimal(s);
      if EsInt(v) then Some(v) else None
  }

  /** Every `Int` is read back from its own text. */
  lemma IntRoundTrip(n: int)
    requires EsInt(n)
    ensures ToIntOrNull(IntToString(n)) == Some(n)
    ensures |IntToString(n)| >= 1 && ',' !in IntToString(n)
  {
    var s := IntToString(n);
    if n < 0 {
      assert s[1..] == Decimal(-n);
      DecimalInverso(-n);
    } else {
      DecimalInverso(n);
    }
  }

  // ---------------------------------------------------------------------
  // Joining and splitting on ","
  // ---------------------------------------------------------------------

  /** `joinToString(",")` of strings. */
  function Unir(partes: seq<string>): string
  {
    if |partes| == 0 then ""
    else if |partes| == 1 then partes[0]
    else partes[0] + "," + Unir(partes[1..])
  }

  /** `split(",")`: the pieces between commas, empty ones included. */
  function Split(s: string): (r: seq<string>)
    ensures |r| >= 1
    ensures forall i :: 0 <= i < |r| ==> ',' !in r[i]
    ensures Unir(r) == s
  {
    if s == [] then [[]]
    else
      var t := Split(s[1..]);
      if s[0] == ',' then
        assert Unir([[]] + t) == [] + "," + Unir(t);
        [[]] + t
      else
        var r := [[s[0]] + t[0]] + t[1..];
        assert |t| > 1 ==> t == [t[0]] + t[1..];
        r
  }

  /** A piece without commas stays whole. */
  lemma {:induction false} SplitSinComa(a: string, resto: string)
    requires ',' !in a
    ensures Split(a + resto) == [a + Split(resto)[0]] + Split(resto)[1..]
    decreases |a|
  {
    var t := Split(resto);
    if a != [] {
      assert (a + resto)[1..] == a[1..] + resto;
      assert (a + resto)[0] == a[0] != ',';
      SplitSinComa(a[1..], resto);
      var u := Split(a[1..] + resto);
      assert u[0] == a[1..] + t[0] && u[1..] == t[1..];
      assert [a[0]] + (a[1..] + t[0]) == a + t[0];
    } else {
      assert a + resto == resto;
      assert a + t[0] == t[0];
      assert t == [t[0]] + t[1..];
    }
  }

  /** Splitting comma-free pieces joined with commas gives the pieces back. */
  lemma {:induction false} SplitUnir(partes: seq<string>)
    requires |partes| >= 1
    requires forall i :: 0 <= i < |partes| ==> ',' !in partes[i]
    ensures Split(Unir(partes)) == partes
    decreases |partes|
  {
    if |partes| == 1 {
      SplitSinComa(partes[0], "");
      assert partes[0] + "" == partes[0];
    } else {
      var resto := Unir(partes[1..]);
      SplitUnir(partes[1..]);
      assert Unir(partes) == partes[0] + ("," + resto);
      SplitSinComa(partes[0], "," + resto);
      assert ("," + resto)[1..] == resto;
      assert Split("," + resto) == [[]] + partes[1..];
      assert partes[0] + [] == partes[0];
      assert partes == [partes[0]] + partes[1..];
    }
  }

  /** The text of each number. */
  function Textos(xs: seq<int>): (r: seq<string>)
    ensures |r| == |xs| && forall i :: 0 <= i < |xs| ==> r[i] == IntToString(xs[i])
  {
    seq(|xs|, i requires 0 <= i < |xs| => IntToString(xs[i]))
  }

  /** `multiplesPerdidos.joinToString(",")`. */
  function JoinToString(xs: seq<int>): (s: string)
    ensures s == "" <==> xs == []
  {
    var partes := Textos(xs);
    if |partes| > 0 then
      assert |partes[0]| >= 1;
      Unir(partes)
    else
      Unir(partes)
  }

  /** `mapNotNull { it.toIntOrNull() }`. */
  function MapNotNull(partes: seq<string>): (r: seq<int>)
    ensures |r| <= |partes|
    ensures forall v :: v in r ==> EsInt(v)
  {
    if partes == [] then []
    else
      (match ToIntOrNull(partes[0]) case Some(v) => [v] case None => [])
      + MapNotNull(partes[1..])
  }

  /** How the results screen reads the missed multiples from the route. */
  function ParseMultiplesPerdidos(s: string): (r: seq<int>)
    ensures s == "" ==> r == []
    ensures s != "" ==> |r| <= |Split(s)|
    ensures forall v :: v in r ==> EsInt(v)
  {
    if s == "" then [] else MapNotNull(Split(s))
  }

  lemma {:induction false} MapNotNullTextos(xs: seq<int>)
    requires forall i :: 0 <= i < |xs| ==> EsInt(xs[i])
    ensures MapNotNull(Textos(xs)) == xs
    decreases |xs|
  {
    if xs != [] {
      IntRoundTrip(xs[0]);
      assert Textos(xs)[1..] == Textos(xs[1..]);
      MapNotNullTextos(xs[1..]);
      assert xs == [xs[0]] + xs[1..];
    }
  }

  /** The missed multiples survive the trip through the route unchanged. */
  lemma JoinParseRoundTrip(xs: seq<int>)
    requires forall i :: 0 <= i < |xs| ==> EsInt(xs[i])
    ensures ParseMultiplesPerdidos(JoinToString(xs)) == xs
  {
    if xs != [] {
      var partes := Textos(xs);
      forall i | 0 <= i < |partes|
        ensures ',' !in partes[i] && |partes[i]| >= 1
      {
        IntRoundTrip(xs[i]);
      }
      assert |JoinToString(xs)| >= 1 by {
        assert |partes| == 1 || |partes| > 1;
      }
      SplitUnir(partes);
      MapNotNullTextos(xs);
    }
  }

  // ---------------------------------------------------------------------
  // The table argument
  // ---------------------------------------------------------------------

  /** `maxOf(2, arguments?.getInt("tabla") ?: 2)`. */
  function TablaResultados(argumento: Option<int>): (t: int)
    ensures t >= 2
    ensures argumento.Some? && argumento.value >= 2 ==> t == argumento.value
    ensures argumento.None? || argumento.value <= 2 ==> t == 2
  {
    var v := match argumento case Some(n) => n case None => 2;
    if v > 2 then v else 2
  }

  // ---------------------------------------------------------------------
  // The list on the results screen
  // ---------------------------------------------------------------------

  predicate Ordenada(xs: seq<int>)
  {
    forall i, j :: 0 <= i < j < |xs| ==> xs[i] <= xs[j]
  }

  predicate Creciente(xs: seq<int>)
  {
    forall i, j :: 0 <= i < j < |xs| ==> xs[i] < xs[j]
  }

  /** A sorted list with a head no larger than any of its elements is sorted. */
  lemma OrdenadaCons(h: int, t: seq<int>)
    requires Ordenada(t) && forall v :: v in t ==> h <= v
    ensures Ordenada([h] + t)
  {
    var r := [h] + t;
    forall i, j | 0 <= i < j < |r|
      ensures r[i] <= r[j]
    {
      assert r[j] == t[j - 1] && t[j - 1] in t;
      if i > 0 {
        assert r[i] == t[i - 1];
      }
    }
  }

  /** The head of a sorted list is its least element. */
  lemma CabezaMinima(xs: seq<int>)
    requires Ordenada(xs)
    ensures forall v :: v in xs ==> xs[0] <= v
  {
    forall v | v in xs
      ensures xs[0] <= v
    {
      var i :| 0 <= i < |xs| && xs[i] == v;
    }
  }

  /** A lower bound carries over to any permutation. */
  lemma CotaPermutacion(h: int, a: seq<int>, b: seq<int>)
    requires multiset(a) == multiset(b) && forall v :: v in b ==> h <= v
    ensures forall v :: v in a ==> h <= v
  {
    forall v | v in a
      ensures h <= v
    {
      assert v in multiset(a);
      assert v in multiset(b);
      assert v in b;
    }
  }

  function Insertar(x: int, xs: seq<int>): (r: seq<int>)
    requires Ordenada(xs)
    ensures Ordenada(r) && multiset(r) == multiset(xs) + multiset{x}
  {
    if xs == [] || x <= xs[0] then
      CabezaMinima(xs);
      OrdenadaCons(x, xs);
      [x] + xs
    else
      var h, resto := xs[0], xs[1..];
      assert xs == [h] + resto;
      CabezaMinima(xs);
      var t := Insertar(x, resto);
      assert multiset(t) == multiset(resto + [x]);
      assert forall v :: v in resto + [x] ==> h <= v;
      CotaPermutacion(h, t, resto + [x]);
      OrdenadaCons(h, t);
      [h] + t
  }

  /** `sorted()`. */
  function Ordenar(xs: seq<int>): (r: seq<int>)
    ensures Ordenada(r) && multiset(r) == multiset(xs)
  {
    if xs == [] then []
    else
      assert xs == [xs[0]] + xs[1..];
      Insertar(xs[0], Ordenar(xs[1..]))
  }

  /** `toSet()` iterated in insertion order: each value at its first
   *  occurrence. */
  function Distintos(xs: seq<int>): (r: seq<int>)
    ensures forall v :: v in r <==> v in xs
    ensures Ordenada(xs) ==> Creciente(r)
  {
    if xs == [] then []
    else
      var d := Distintos(xs[..|xs| - 1]);
      var x := xs[|xs| - 1];
      assert forall v :: v in xs <==> v in xs[..|xs| - 1] || v == x by {
        assert xs == xs[..|xs| - 1] + [x];
      }
      if x in d then d
      else
        var r := d + [x];
        assert Ordenada(xs) ==> Creciente(r) by {
          if Ordenada(xs) {
            assert Ordenada(xs[..|xs| - 1]);
            forall v | v in d
              ensures v < x
            {
              var i :| 0 <= i < |xs| - 1 && xs[i] == v;
            }
            forall i, j | 0 <= i < j < |r|
              ensures r[i] < r[j]
            {
              if j == |d| {
                assert r[i] == d[i] && d[i] in d;
              } else {
                assert r[i] == d[i] && r[j] == d[j];
              }
            }
          }
        }
        r
  }

  /** `multiplesPerdidos.sorted().toSet()`: strictly increasing, with
   *  exactly the values of the missed list. */
  function ListaPantalla(xs: seq<int>): (r: seq<int>)
    ensures Creciente(r)
    ensures forall v :: v in r <==> v in xs
  {
    var o := Ordenar(xs);
    assert forall v :: v in o <==> v in xs by {
      assert forall v :: v in o <==> v in multiset(o);
    }
    Distintos(o)
  }
}
