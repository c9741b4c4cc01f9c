/**
  The fragments of java.lang.String that the record engine relies on, written
  out on `seq<char>`: `trim`, ASCII case folding (`toLowerCase`,
  `toUpperCase`, `equalsIgnoreCase`), `contains`, `startsWith`, `compareTo`,
  decimal rendering of integers and `String.join`.
*/
module Texto {

  // ---------------------------------------------------------------- digits

  predicate EsDigito(c: char) {
    '0' <= c <= '9'
  }

  predicate TodosDigitos(s: string) {
    forall i | 0 <= i < |s| :: EsDigito(s[i])
  }

  /** The regular expression `\d{n}` matched against the whole of `s`. */
  function CoincideDigitos(s: string, n: nat): (r: bool)
    ensures r <==> |s| == n && TodosDigitos(s)
    decreases n
  {
    if n == 0 then s == []
    else s != [] && EsDigito(s[0]) && CoincideDigitos(s[1..], n - 1)
  }

  // ---------------------------------------------------------------- trim

  /** Java's `trim` drops every character up to and including U+0020. */
  predicate EsEspacio(c: char) {
    c <= ' '
  }

  predicate EsBlanco(s: string) {
    forall k | 0 <= k < |s| :: EsEspacio(s[k])
  }

  /** Index of the first character that `trim` keeps (or |s|). */
  function InicioRecorte(s: string): (st: nat)
    ensures st <= |s|
    ensures forall k | 0 <= k < st :: EsEspacio(s[k])
    ensures st < |s| ==> !EsEspacio(s[st])
  {
    if s == [] || !EsEspacio(s[0]) then 0 else 1 + InicioRecorte(s[1..])
  }

  /** One past the last character that `trim` keeps, searching back to `st`. */
  function FinRecorte(s: string, st: nat): (len: nat)
    requires st <= |s|
    ensures st <= len <= |s|
    ensures forall k | len <= k < |s| :: EsEspacio(s[k])
    ensures len > st ==> !EsEspacio(s[len - 1])
    decreases |s|
  {
    if |s| == st || !EsEspacio(s[|s| - 1]) then |s| else FinRecorte(s[..|s| - 1], st)
  }

  /**
    `s.trim()`: the longest slice of `s` that neither starts nor ends with a
    character at or below U+0020; it is empty exactly when `s` is blank.
  */
  function Trim(s: string): (r: string)
    ensures |r| <= |s|
    ensures r != [] ==> !EsEspacio(r[0]) && !EsEspacio(r[|r| - 1])
    ensures r == [] <==> EsBlanco(s)
    ensures !EsBlanco(s) ==> r == s[InicioRecorte(s)..FinRecorte(s, InicioRecorte(s))]
  {
    var st := InicioRecorte(s);
    var len := FinRecorte(s, st);
    assert st < |s| ==> len > st;
    s[st..len]
  }

  /** A string that neither starts nor ends with a blank is its own trim. */
  lemma TrimDeRecortado(s: string)
    requires s != [] ==> !EsEspacio(s[0]) && !EsEspacio(s[|s| - 1])
    ensures Trim(s) == s
  {
    if s != [] {
      assert InicioRecorte(s) == 0;
      assert FinRecorte(s, 0) == |s|;
    }
  }

  lemma TrimIdempotente(s: string)
    ensures Trim(Trim(s)) == Trim(s)
  {
    TrimDeRecortado(Trim(s));
  }

  /** A string whose characters are all above U+0020 is left alone by `trim`. */
  lemma TrimSinEspacios(s: string)
    requires forall k | 0 <= k < |s| :: !EsEspacio(s[k])
    ensures Trim(s) == s
  {
    TrimDeRecortado(s);
  }

  // ---------------------------------------------------------------- case

  function MinusculaAscii(c: char): (d: char)
    ensures 'A' <= c <= 'Z' ==> 'a' <= d <= 'z'
    ensures !('A' <= c <= 'Z') ==> d == c
  {
    if 'A' <= c <= 'Z' then (c as int + 32) as char else c
  }

  function MayusculaAscii(c: char): (d: char)
    ensures 'a' <= c <= 'z' ==> 'A' <= d <= 'Z'
    ensures !('a' <= c <= 'z') ==> d == c
  {
    if 'a' <= c <= 'z' then (c as int - 32) as char else c
  }

  /** `toLowerCase`, restricted to the ASCII letters. */
  function Minusculas(s: string): (r: string)
    ensures |r| == |s|
    ensures forall i | 0 <= i < |s| :: r[i] == MinusculaAscii(s[i])
  {
    seq(|s|, i requires 0 <= i < |s| => MinusculaAscii(s[i]))
  }

  /** `toUpperCase`, restricted to the ASCII letters. */
  function Mayusculas(s: string): (r: string)
    ensures |r| == |s|
    ensures forall i | 0 <= i < |s| :: r[i] == MayusculaAscii(s[i])
  {
    seq(|s|, i requires 0 <= i < |s| => MayusculaAscii(s[i]))
  }

  /** `a.equalsIgnoreCase(b)` on ASCII letters: same length, same letters up to case. */
  predicate IgualIgnorandoMayusculas(a: string, b: string) {
    |a| == |b| && forall i | 0 <= i < |a| :: MinusculaAscii(a[i]) == MinusculaAscii(b[i])
  }

  /** Two strings are equal ignoring case exactly when their lower-case forms are equal. */
  lemma IgualIgnorandoMinusculas(a: string, b: string)
    ensures IgualIgnorandoMayusculas(a, b) <==> Minusculas(a) == Minusculas(b)
  {
    if Minusculas(a) == Minusculas(b) {
      forall i | 0 <= i < |a|
        ensures MinusculaAscii(a[i]) == MinusculaAscii(b[i])
      {
        assert Minusculas(a)[i] == Minusculas(b)[i];
      }
    }
  }

  // ---------------------------------------------------------------- search

  /** `s.contains(t)`: `t` occurs in `s` as a contiguous slice. */
  predicate Contiene(s: string, t: string) {
    exists i | 0 <= i <= |s| - |t| :: ApareceEn(s, t, i)
  }

  /** `t` occurs in `s` starting at index `i`. */
  predicate ApareceEn(s: string, t: string, i: nat) {
    i + |t| <= |s| && s[i..i + |t|] == t
  }

  /** `s.startsWith(p)`. */
  predicate EmpiezaCon(s: string, p: string) {
    |p| <= |s| && s[..|p|] == p
  }

  // ---------------------------------------------------------------- order

  /** `a.compareTo(b) <= 0`: lexicographic order on characters, a prefix first. */
  predicate MenorIgualLex(a: string, b: string) {
    if a == [] then true
    else if b == [] then false
    else if a[0] != b[0] then a[0] < b[0]
    else MenorIgualLex(a[1..], b[1..])
  }

  lemma {:induction false} LexReflexivo(a: string)
    ensures MenorIgualLex(a, a)
  {
    if a != [] {
      LexReflexivo(a[1..]);
    }
  }

  lemma {:induction false} LexTotal(a: string, b: string)
    ensures MenorIgualLex(a, b) || MenorIgualLex(b, a)
  {
    if a != [] && b != [] && a[0] == b[0] {
      LexTotal(a[1..], b[1..]);
    }
  }

  lemma {:induction false} LexAntisimetrico(a: string, b: string)
    requires MenorIgualLex(a, b) && MenorIgualLex(b, a)
    ensures a == b
  {
    if a != [] && b != [] {
      LexAntisimetrico(a[1..], b[1..]);
      assert a == [a[0]] + a[1..];
      assert b == [b[0]] + b[1..];
    }
  }

  lemma {:induction false} LexTransitivo(a: string, b: string, c: string)
    requires MenorIgualLex(a, b) && MenorIgualLex(b, c)
    ensures MenorIgualLex(a, c)
  {
    if a != [] && b != [] && c != [] && a[0] == b[0] && b[0] == c[0] {
      LexTransitivo(a[1..], b[1..], c[1..]);
    }
  }

  // ---------------------------------------------------------------- numbers

  function CaracterDigito(d: nat): (c: char)
    requires d < 10
    ensures EsDigito(c)
  {
    ('0' as int + d) as char
  }

  function ValorDigito(c: char): (d: nat)
    requires EsDigito(c)
    ensures d < 10
  {
    c as int - '0' as int
  }

  /** `Integer.toString(n)` for a non-negative `n`: no leading zeros. */
  function Digitos(n: nat): (r: string)
    ensures |r| >= 1 && TodosDigitos(r)
    ensures |r| > 1 ==> r[0] != '0'
  {
    if n < 10 then [CaracterDigito(n)] else Digitos(n / 10) + [CaracterDigito(n % 10)]
  }

  /** The number a string of decimal digits denotes (leading zeros allowed). */
  function Valor(s: string): nat
    requires TodosDigitos(s)
  {
    if s == [] then 0 else Valor(s[..|s| - 1]) * 10 + ValorDigito(s[|s| - 1])
  }

  /** Reading back a rendered number gives the number. */
  lemma {:induction false} ValorDeDigitos(n: nat)
    ensures Valor(Digitos(n)) == n
  {
    if n >= 10 {
      ValorDeDigitos(n / 10);
      var r := Digitos(n);
      assert r[..|r| - 1] == Digitos(n / 10);
    }
  }

  function Ceros(k: nat): (r: string)
    ensures |r| == k && TodosDigitos(r)
    ensures forall i | 0 <= i < k :: r[i] == '0'
  {
    seq(k, i => '0')
  }

  /** Leading zeros do not change the value. */
  lemma {:induction false} ValorConCeros(k: nat, s: string)
    requires TodosDigitos(s)
    ensures Valor(Ceros(k) + s) == Valor(s)
    decreases |s|, k
  {
    if s == [] {
      if k > 0 {
        var z := Ceros(k);
        assert z + s == z;
        assert z[..k - 1] == Ceros(k - 1);
        ValorConCeros(k - 1, []);
        assert Ceros(k - 1) + [] == Ceros(k - 1);
      }
    } else {
      var t := Ceros(k) + s;
      assert t[..|t| - 1] == Ceros(k) + s[..|s| - 1];
      ValorConCeros(k, s[..|s| - 1]);
    }
  }

  /** `String.format("%0<w>d", n)` for a non-negative `n`. */
  function RellenoCeros(n: nat, w: nat): (r: string)
    ensures |r| == if |Digitos(n)| >= w then |Digitos(n)| else w
    ensures TodosDigitos(r) && Valor(r) == n
    ensures r[|r| - |Digitos(n)|..] == Digitos(n)
    ensures forall i | 0 <= i < |r| - |Digitos(n)| :: r[i] == '0'
  {
    var d := Digitos(n);
    ValorDeDigitos(n);
    if |d| >= w then d
    else
      ValorConCeros(w - |d|, d);
      Ceros(w - |d|) + d
  }

  /** `String.valueOf(i)` / `%d`: a minus sign for negative numbers. */
  function Decimal(i: int): (r: string)
    ensures r != []
    ensures i >= 0 ==> TodosDigitos(r) && Valor(r) == i
    ensures i >= 0 && |r| > 1 ==> r[0] != '0'
    ensures i < 0 ==> |r| >= 2 && r[0] == '-' && TodosDigitos(r[1..]) && Valor(r[1..]) == -i
    ensures i < 0 && |r| > 2 ==> r[1] != '0'
  {
    if i < 0 then
      ValorDeDigitos(-i);
      assert ("-" + Digitos(-i))[1..] == Digitos(-i);
      "-" + Digitos(-i)
    else
      ValorDeDigitos(i);
      Digitos(i)
  }

  // ---------------------------------------------------------------- join

  /** `String.join(sep, xs)`. */
  function Unir(xs: seq<string>, sep: string): string {
    if |xs| == 0 then ""
    else if |xs| == 1 then xs[0]
    else Unir(xs[..|xs| - 1], sep) + sep + xs[|xs| - 1]
  }
}
