/**
  The field checks of the abstract person record: national id (DNI), phone
  and e-mail. Each Java method first rejects `null` and the empty string and
  then matches a regular expression against the whole string; the model
  matches the same expressions character by character.
*/
module Persona {
  import opened Texto

  /** `validarDNI`: the expression `\d{8}`. */
  function ValidarDNI(dni: string): (r: bool)
    ensures r <==> |dni| == 8 && TodosDigitos(dni)
  {
    if dni == [] then false else CoincideDigitos(dni, 8)
  }

  /** `validarTelefono`: the expression `\d{9}`. */
  function ValidarTelefono(telefono: string): (r: bool)
    ensures r <==> |telefono| == 9 && TodosDigitos(telefono)
  {
    if telefono == [] then false else CoincideDigitos(telefono, 9)
  }

  // ---------------------------------------------------------------- e-mail

  /** The class `[A-Za-z0-9+_.-]` of the local part. */
  predicate CaracterLocal(c: char) {
    'A' <= c <= 'Z' || 'a' <= c <= 'z' || '0' <= c <= '9' || c == '+' || c == '_' || c == '.' || c == '-'
  }

  /** The line terminators that `.` does not match in a Java regular expression. */
  predicate FinDeLinea(c: char) {
    c == '\n' || c == '\r' || c == '\U{0085}' || c == '\U{2028}' || c == '\U{2029}'
  }

  /** `s` splits at index `k` into a local part, `@`, and a domain of one line. */
  predicate DivisionEmail(s: string, k: nat) {
    && k < |s|
    && s[k] == '@'
    && (forall i | 0 <= i < k :: CaracterLocal(s[i]))
    && (forall i | k < i < |s| :: !FinDeLinea(s[i]))
  }

  /**
    What `^[A-Za-z0-9+_.-]+@(.+)$` accepts: a non-empty local part drawn from
    the class, then `@`, then at least one character, none a line terminator.
  */
  predicate FormaEmail(s: string) {
    exists k | 0 < k < |s| - 1 :: DivisionEmail(s, k)
  }

  /** Index of the first `@` of `s`, or |s| when there is none. */
  function PosArroba(s: string): (p: nat)
    ensures p <= |s|
    ensures forall i | 0 <= i < p :: s[i] != '@'
    ensures p < |s| ==> s[p] == '@'
  {
    if s == [] || s[0] == '@' then 0 else 1 + PosArroba(s[1..])
  }

  /**
    `validarEmail`. The local-part class does not contain `@`, so the only
    way to split the address is at its first `@`.
  */
  function ValidarEmail(email: string): (r: bool)
    ensures r <==> FormaEmail(email)
    ensures email == [] ==> !r
  {
    if email == [] then false
    else
      var p := PosArroba(email);
      var r := 0 < p < |email| - 1 && DivisionEmail(email, p);
      assert FormaEmail(email) ==> r by {
        if FormaEmail(email) {
          var k :| 0 < k < |email| - 1 && DivisionEmail(email, k);
          assert !CaracterLocal('@');
          assert p == k;
        }
      }
      r
  }

  /** Addresses without `@`, starting with `@`, or whose only `@` ends them are rejected. */
  lemma EmailRechazado(s: string)
    requires || (forall i | 0 <= i < |s| :: s[i] != '@')
             || (s != [] && s[0] == '@')
             || (s != [] && PosArroba(s) == |s| - 1)
    ensures !ValidarEmail(s)
  {
  }

  /** A second `@` may end the domain: `.` matches `@`. */
  lemma EmailConArrobaFinal()
    ensures ValidarEmail("a@b@")
  {
    assert DivisionEmail("a@b@", 1);
  }

  /** The local part may not hold a space, even where the domain may. */
  lemma EmailEspacios()
    ensures !ValidarEmail("a b@c")
    ensures ValidarEmail("ab@ ")
  {
    assert PosArroba("a b@c") == 3;
    assert DivisionEmail("ab@ ", 2);
  }
}
