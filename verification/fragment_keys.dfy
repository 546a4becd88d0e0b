/**
 * The saved-state key codec of CarouselFragmentStateAdapter.kt: a key is a
 * two-character prefix followed by the decimal rendering of a 64-bit item
 * id, and restoring parses the id back out of it. Decimal rendering and
 * parsing follow `Long.toString` and `String.toLong` on ASCII digits.
 */
module FragmentKeys {
  import opened Wrappers
  import opened Kotlin

  const KEY_PREFIX_FRAGMENT: string := "f#"
  const KEY_PREFIX_STATE: string := "s#"

  predicate IsDigit(c: char) { '0' <= c <= '9' }

  predicate AllDigits(s: string) {
    forall i :: 0 <= i < |s| ==> IsDigit(s[i])
  }

  function DigitChar(d: nat): (c: char)
    requires d < 10
    ensures IsDigit(c) && DigitValue(c) == d
  {
    (('0' as int) + d) as char
  }

  function DigitValue(c: char): (d: nat)
    requires IsDigit(c)
    ensures d < 10
  {
    (c as int) - ('0' as int)
  }

  /** The decimal digits of `n`, most significant first, with no leading zero. */
  function Digits(n: nat): (s: string)
    decreases n
  {
    if n < 10 then [DigitChar(n)] else Digits(n / 10) + [DigitChar(n % 10)]
  }

  /** The number a string of decimal digits denotes. */
  function DigitsValue(s: string): nat
    requires AllDigits(s)
    decreases |s|
  {
    if |s| == 0 then 0 else DigitsValue(s[..|s| - 1]) * 10 + DigitValue(s[|s| - 1])
  }

  /** Rendering then reading digits gives back the number. */
  lemma {:induction false} DigitsRoundTrip(n: nat)
    ensures |Digits(n)| >= 1 && AllDigits(Digits(n))
    ensures DigitsValue(Digits(n)) == n
    decreases n
  {
    if n >= 10 {
      DigitsRoundTrip(n / 10);
      var s := Digits(n);
      assert s[..|s| - 1] == Digits(n / 10);
    }
  }

  /** `Long.toString`: a minus sign before the digits of a negative id. */
  function LongToString(id: int): (s: string)
  {
    if id < 0 then "-" + Digits(-id) else Digits(id)
  }

  /**
   * `String.toLong` on ASCII: an optional sign, at least one digit, nothing
   * else, and a value that fits in a `Long`; `None` where it throws
   * `NumberFormatException`.
   */
  function ParseLong(s: string): (r: Option<int>)
    ensures r.Some? ==> IsLong(r.value)
  {
    if |s| == 0 then None
    else
      var negative := s[0] == '-';
      var digits := if s[0] == '-' || s[0] == '+' then s[1..] else s;
      if |digits| == 0 || !AllDigits(digits) then None
      else
        var magnitude: int := DigitsValue(digits);
        var value := if negative then -magnitude else magnitude;
        if IsLong(value) then Some(value) else None
  }

  /** Every `Long` reads back from its rendering, the most negative one included. */
  lemma LongRoundTrip(id: int)
    requires IsLong(id)
    ensures ParseLong(LongToString(id)) == Some(id)
  {
    var s := LongToString(id);
    if id < 0 {
      var d := Digits(-id);
      DigitsRoundTrip(-id);
      assert s[0] == '-';
      assert s[1..] == d;
      assert DigitsValue(d) == -id;
    } else {
      DigitsRoundTrip(id);
      assert IsDigit(s[0]);
      assert s[0] != '-' && s[0] != '+';
    }
  }

  /** `createKey`: the prefix, then the id in decimal. */
  function CreateKey(prefix: string, id: int): (key: string)
    ensures |key| > |prefix| && key[..|prefix|] == prefix
  {
    DigitsRoundTrip(Abs(id));
    prefix + LongToString(id)
  }

  /** `isValidKey`: the key starts with the prefix and has something after it. */
  predicate IsValidKey(key: string, prefix: string) {
    |prefix| <= |key| && key[..|prefix|] == prefix && |key| > |prefix|
  }

  /**
   * `parseIdFromKey`: the id after the prefix; `None` where `substring` or
   * `toLong` throws.
   */
  function ParseIdFromKey(key: string, prefix: string): (r: Option<int>)
    ensures r.Some? ==> IsLong(r.value)
  {
    if |prefix| > |key| then None else ParseLong(key[|prefix|..])
  }

  /** Every created key is valid for its prefix and gives back its id. */
  lemma KeyRoundTrip(prefix: string, id: int)
    requires IsLong(id)
    ensures IsValidKey(CreateKey(prefix, id), prefix)
    ensures ParseIdFromKey(CreateKey(prefix, id), prefix) == Some(id)
  {
    var key := CreateKey(prefix, id);
    assert key[|prefix|..] == LongToString(id);
    LongRoundTrip(id);
  }

  /** Different ids make different keys under one prefix. */
  lemma CreateKeyInjective(prefix: string, a: int, b: int)
    requires IsLong(a) && IsLong(b) && CreateKey(prefix, a) == CreateKey(prefix, b)
    ensures a == b
  {
    KeyRoundTrip(prefix, a);
    KeyRoundTrip(prefix, b);
  }

  /** A fragment key is never a state key and a state key never a fragment key. */
  lemma PrefixesDisjoint(id: int)
    ensures !IsValidKey(CreateKey(KEY_PREFIX_FRAGMENT, id), KEY_PREFIX_STATE)
    ensures !IsValidKey(CreateKey(KEY_PREFIX_STATE, id), KEY_PREFIX_FRAGMENT)
  {
    assert CreateKey(KEY_PREFIX_FRAGMENT, id)[0] == 'f';
    assert CreateKey(KEY_PREFIX_STATE, id)[0] == 's';
  }

  /** `getItemId`: the adapter position is the item id. */
  function GetItemId(position: int): (id: int)
    ensures IsInt(position) ==> IsLong(id)
    ensures id == position
  {
    position
  }

  /** `containsItem`: an id denotes an item exactly when it is a position of the adapter. */
  predicate ContainsItem(itemId: int, itemCount: nat) {
    0 <= itemId < itemCount
  }

  /** The ids of the adapter are exactly the ids `getItemId` gives its positions. */
  lemma ContainsExactlyItemIds(itemId: int, itemCount: nat)
    ensures ContainsItem(itemId, itemCount) <==> exists position :: 0 <= position < itemCount && GetItemId(position) == itemId
  {
    if ContainsItem(itemId, itemCount) {
      assert GetItemId(itemId) == itemId;
    }
  }
}
