/** The registry cache key (pkg/kafka/schema_registry.go:166-173). */
module CacheKey {
  import opened Prelude

  const NUL: byte := 0
  const MINUS: byte := 45

  /** Decimal digits, most significant first. */
  function Digits(n: nat): (d: GoString)
    ensures |d| >= 1 && forall i | 0 <= i < |d| :: 48 <= d[i] <= 57
  {
    if n < 10 then [48 + n] else Digits(n / 10) + [48 + n % 10]
  }

  /** strconv.Itoa. */
  function Itoa(n: int): GoString {
    if n < 0 then [MINUS] + Digits(-n) else Digits(n)
  }

  /** schemaCacheKey; no version means the latest. */
  function Key(subject: GoString, version: Option<int>): GoString {
    if version.None? then subject + [NUL] else subject + [NUL] + Itoa(version.value)
  }

  function ParseDigits(d: GoString): int {
    if d == [] then 0 else 10 * ParseDigits(d[..|d| - 1]) + (d[|d| - 1] as int - 48)
  }

  /** The version a suffix of a key stands for. */
  function ParseVersion(suffix: GoString): Option<int> {
    if suffix == [] then None
    else if suffix[0] == MINUS then Some(-ParseDigits(suffix[1..]))
    else Some(ParseDigits(suffix))
  }

  /** The number of bytes before the last NUL. */
  function LastNul(key: GoString): nat
    requires NUL in key
    ensures LastNul(key) < |key|
  {
    if key[|key| - 1] == NUL then |key| - 1
    else
      assert key == key[..|key| - 1] + [key[|key| - 1]];
      LastNul(key[..|key| - 1])
  }

  /** Splits a key at its last NUL. */
  function SplitKey(key: GoString): (GoString, Option<int>)
    requires NUL in key
  {
    (key[..LastNul(key)], ParseVersion(key[LastNul(key) + 1..]))
  }

  lemma {:induction false} ParseDigitsInverse(n: nat)
    ensures ParseDigits(Digits(n)) == n
  {
    if n >= 10 {
      ParseDigitsInverse(n / 10);
      var d := Digits(n);
      assert d[..|d| - 1] == Digits(n / 10);
    } else {
      assert [48 + n][..0] == [];
    }
  }

  lemma {:induction false} LastNulAt(prefix: GoString, suffix: GoString)
    requires NUL !in suffix
    ensures NUL in prefix + [NUL] + suffix && LastNul(prefix + [NUL] + suffix) == |prefix|
  {
    var key := prefix + [NUL] + suffix;
    assert key[|prefix|] == NUL;
    if suffix != [] {
      var init := suffix[..|suffix| - 1];
      LastNulAt(prefix, init);
      assert key[..|key| - 1] == prefix + [NUL] + init;
      assert key[|key| - 1] == suffix[|suffix| - 1];
    }
  }

  lemma VersionInverse(n: int)
    ensures NUL !in Itoa(n) && ParseVersion(Itoa(n)) == Some(n)
  {
    ParseDigitsInverse(if n < 0 then -n else n);
    if n < 0 {
      assert Itoa(n)[1..] == Digits(-n);
    }
  }

  lemma SplitAt(subject: GoString, suffix: GoString)
    requires NUL !in suffix
    ensures NUL in subject + [NUL] + suffix
    ensures SplitKey(subject + [NUL] + suffix) == (subject, ParseVersion(suffix))
  {
    var key := subject + [NUL] + suffix;
    LastNulAt(subject, suffix);
    assert key[..|subject|] == subject && key[|subject| + 1..] == suffix;
  }

  /** Splitting recovers the subject and the version, for every subject, NULs
      included, and every version. */
  lemma SplitInvertsKey(subject: GoString, version: Option<int>)
    ensures NUL in Key(subject, version) && SplitKey(Key(subject, version)) == (subject, version)
  {
    if version.None? {
      SplitAt(subject, []);
      assert Key(subject, version) == subject + [NUL] + [];
    } else {
      VersionInverse(version.value);
      SplitAt(subject, Itoa(version.value));
    }
  }

  /** Two lookups share a cache entry only if they ask for the same thing. */
  lemma KeyInjective(s1: GoString, v1: Option<int>, s2: GoString, v2: Option<int>)
    ensures Key(s1, v1) == Key(s2, v2) <==> s1 == s2 && v1 == v2
  {
    SplitInvertsKey(s1, v1);
    SplitInvertsKey(s2, v2);
  }
}
