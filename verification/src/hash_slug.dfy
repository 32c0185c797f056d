/**
 * The random slug of pkg/utils/create_hash_slug.go: ten symbols drawn from
 * the 62 ASCII letters and digits. `crypto/rand` is not modelled: `draw(i)`
 * is what `rand.Int(rand.Reader, 62)` answers for the i-th symbol, an index
 * below 62 or an error.
 */
module HashSlug {
  import opened Wrappers
  import opened WrapErrors

  const SlugLength: nat := 10
  const AlphabetSize: nat := 62

  /** What `rand.Int(rand.Reader, big.NewInt(62))` can answer. */
  type Index = n: nat | n < 62

  /**
   * `lettersRune[i]`: the alphabet lists `a`-`z`, then `A`-`Z`, then `0`-`9`,
   * so symbol i is found by offsetting from the first of its group.
   */
  function Symbol(i: Index): char {
    if i < 26 then ('a' as int + i) as char
    else if i < 52 then ('A' as int + (i - 26)) as char
    else ('0' as int + (i - 52)) as char
  }

  predicate IsAlphanumeric(c: char) {
    'a' <= c <= 'z' || 'A' <= c <= 'Z' || '0' <= c <= '9'
  }

  /** The alphabet is exactly the 62 ASCII letters and digits, each listed once. */
  lemma SymbolsAreTheAlphanumerics()
    ensures forall i: Index :: IsAlphanumeric(Symbol(i))
    ensures forall c :: IsAlphanumeric(c) ==> exists i: Index :: Symbol(i) == c
    ensures forall i: Index, j: Index :: Symbol(i) == Symbol(j) ==> i == j
  {
    forall c | IsAlphanumeric(c)
      ensures exists i: Index :: Symbol(i) == c
    {
      var i: Index :=
        if 'a' <= c <= 'z' then c as int - 'a' as int
        else if 'A' <= c <= 'Z' then c as int - 'A' as int + 26
        else c as int - '0' as int + 52;
      assert Symbol(i) == c;
    }
  }

  /**
   * `CreateHashSlug`: fill ten runes one draw at a time; the first failed
   * draw ends it with an internal error.
   */
  method CreateHashSlug(draw: nat -> Result<Index, Error>) returns (r: Result<string, Error>)
    ensures r.Ok? <==> forall i :: 0 <= i < SlugLength ==> draw(i).Ok?
    ensures r.Ok? ==> (|r.value| == SlugLength &&
      forall i :: 0 <= i < SlugLength ==> r.value[i] == Symbol(draw(i).value))
    ensures r.Ok? ==> forall c :: c in r.value ==> IsAlphanumeric(c)
    ensures r.Err? ==> exists i :: (0 <= i < SlugLength && draw(i).Err? && (forall j :: 0 <= j < i ==> draw(j).Ok?) &&
      r.error == InternalErr("Failed to create a slug", Some(draw(i).error)))
  {
    var b := new char[SlugLength];
    for i := 0 to SlugLength
      invariant forall k :: 0 <= k < i ==> draw(k).Ok? && b[k] == Symbol(draw(k).value)
    {
      var num := draw(i);
      if num.Err? {
        return Err(InternalErr("Failed to create a slug", Some(num.error)));
      }
      b[i] := Symbol(num.value);
    }
    SymbolsAreTheAlphanumerics();
    return Ok(b[..]);
  }
}
