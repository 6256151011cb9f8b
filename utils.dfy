/**
 * The password helpers of app/utils.py: a hash that first truncates the
 * password to the 72-byte input limit of bcrypt, and an unguarded verify.
 *
 * The truncation as written tests the UTF-8 byte length but slices by
 * characters, so its result can still be longer than 72 bytes
 * (`TruncateAsWritten`, `TruncationCanExceedLimit`). The byte-bounded
 * truncation it evidently intends is `FitToBytes`, which `HashPassword` uses.
 */
module Utils {
  import opened Crypt

  /** The input limit, in bytes, that the truncation guards. */
  const MaxPasswordBytes: nat := 72

  /** Bytes taken by one Unicode scalar value in UTF-8. */
  function Utf8Width(c: char): (n: nat)
    ensures 1 <= n <= 4
  {
    if c as int < 0x80 then 1
    else if c as int < 0x800 then 2
    else if c as int < 0x10000 then 3
    else 4
  }

  /** `len(s.encode('utf-8'))`. */
  function Utf8Length(s: string): nat
  {
    if s == [] then 0 else Utf8Width(s[0]) + Utf8Length(s[1..])
  }

  // ---------------------------------------------------------------------
  // The truncation as written
  // ---------------------------------------------------------------------

  /** `password[:72]` when the UTF-8 encoding is longer than 72 bytes. */
  function TruncateAsWritten(password: string): (r: string)
    ensures r <= password
    ensures |r| <= MaxPasswordBytes || r == password
  {
    if Utf8Length(password) > MaxPasswordBytes then
      password[..if |password| < MaxPasswordBytes then |password| else MaxPasswordBytes]
    else password
  }

  /** `hash_password` as written. */
  function HashPasswordAsWritten(ctx: CryptContext, password: string): (h: string)
    ensures Utf8Length(password) <= MaxPasswordBytes ==> h == ctx.hash(password)
    ensures Utf8Length(password) > MaxPasswordBytes && |password| >= MaxPasswordBytes ==>
      h == ctx.hash(password[..MaxPasswordBytes])
  {
    ctx.hash(TruncateAsWritten(password))
  }

  /** A password of at most 72 bytes is hashed unchanged. */
  lemma ShortPasswordUnchanged(ctx: CryptContext, password: string)
    requires Utf8Length(password) <= MaxPasswordBytes
    ensures TruncateAsWritten(password) == password
    ensures HashPasswordAsWritten(ctx, password) == ctx.hash(password)
  {
  }

  /** A longer password is cut to its first 72 characters (or all of them). */
  lemma LongPasswordCutByCharacters(password: string)
    requires Utf8Length(password) > MaxPasswordBytes
    ensures |password| >= MaxPasswordBytes ==> TruncateAsWritten(password) == password[..MaxPasswordBytes]
    ensures |password| < MaxPasswordBytes ==> TruncateAsWritten(password) == password
  {
  }

  /** The truncated value is a prefix of the input. */
  lemma TruncationIsPrefix(password: string)
    ensures TruncateAsWritten(password) <= password
    ensures |TruncateAsWritten(password)| <= |password|
  {
  }

  /** Truncating twice is truncating once. */
  lemma TruncationIdempotent(password: string)
    ensures TruncateAsWritten(TruncateAsWritten(password)) == TruncateAsWritten(password)
  {
    var t := TruncateAsWritten(password);
    if Utf8Length(t) > MaxPasswordBytes {
      assert |t| <= MaxPasswordBytes;
      assert t[..|t|] == t;
    }
  }

  /** 72 copies of U+00E9 ('é', two bytes each). */
  function SeventyTwoAccents(): (s: string)
    ensures |s| == 72 && forall i :: 0 <= i < |s| ==> s[i] == 'é'
  {
    seq(72, _ => 'é')
  }

  /** Every character of `s` is two bytes long, so `s` is `2 * |s|` bytes. */
  lemma {:induction false} TwoByteLength(s: string)
    requires forall i :: 0 <= i < |s| ==> s[i] == 'é'
    ensures Utf8Length(s) == 2 * |s|
  {
    if s != [] {
      TwoByteLength(s[1..]);
    }
  }

  /**
   * The truncation as written can leave more than 72 bytes: 72 two-byte
   * characters are 144 bytes, and their first 72 characters are all of them.
   */
  lemma TruncationCanExceedLimit()
    ensures var s := SeventyTwoAccents();
      Utf8Length(s) > MaxPasswordBytes && Utf8Length(TruncateAsWritten(s)) == 144
  {
    var s := SeventyTwoAccents();
    TwoByteLength(s);
    assert s[..72] == s;
  }

  // ---------------------------------------------------------------------
  // The truncation as intended: the longest character prefix within the limit
  // ---------------------------------------------------------------------

  /**
   * The longest prefix of `s`, cut at a character boundary, whose UTF-8
   * encoding fits in `budget` bytes.
   */
  function FitToBytes(s: string, budget: nat): (r: string)
    ensures r <= s
    ensures Utf8Length(r) <= budget
    ensures r == s || Utf8Length(r) + Utf8Width(s[|r|]) > budget
    decreases |s|
  {
    if s == [] || Utf8Width(s[0]) > budget then []
    else
      var rest := FitToBytes(s[1..], budget - Utf8Width(s[0]));
      assert ([s[0]] + rest)[1..] == rest;
      [s[0]] + rest
  }

  /** A string within the budget is kept whole. */
  lemma {:induction false} FitKeepsShortStrings(s: string, budget: nat)
    requires Utf8Length(s) <= budget
    ensures FitToBytes(s, budget) == s
    decreases |s|
  {
    if s != [] {
      FitKeepsShortStrings(s[1..], budget - Utf8Width(s[0]));
      assert [s[0]] + s[1..] == s;
    }
  }

  /** `hash_password` as intended: hash the byte-bounded prefix. */
  function HashPassword(ctx: CryptContext, password: string): string
  {
    ctx.hash(FitToBytes(password, MaxPasswordBytes))
  }

  /**
   * The hashed input always fits the limit, is a prefix of the password, and
   * is the password itself when that fits.
   */
  lemma HashPasswordHashesFittedPrefix(ctx: CryptContext, password: string)
    ensures HashPassword(ctx, password) == ctx.hash(FitToBytes(password, MaxPasswordBytes))
    ensures Utf8Length(FitToBytes(password, MaxPasswordBytes)) <= MaxPasswordBytes
    ensures FitToBytes(password, MaxPasswordBytes) <= password
    ensures Utf8Length(password) <= MaxPasswordBytes ==> HashPassword(ctx, password) == ctx.hash(password)
  {
    if Utf8Length(password) <= MaxPasswordBytes {
      FitKeepsShortStrings(password, MaxPasswordBytes);
    }
  }

  /** The corrected truncation agrees with the one as written on every password of at most 72 bytes. */
  lemma FitAgreesOnShortPasswords(password: string)
    requires Utf8Length(password) <= MaxPasswordBytes
    ensures FitToBytes(password, MaxPasswordBytes) == TruncateAsWritten(password)
  {
    FitKeepsShortStrings(password, MaxPasswordBytes);
  }

  /**
   * `verify_password` of app/utils.py: the library's verdict, with any
   * exception it raises passed on to the caller.
   */
  function VerifyPasswordUnguarded(ctx: CryptContext, plain: string, hashed: string): (r: Verification)
    ensures r.Raised? <==> ctx.verify(plain, hashed).Raised?
    ensures r.Verdict? ==> r.matches == ctx.verify(plain, hashed).matches
  {
    ctx.verify(plain, hashed)
  }
}
