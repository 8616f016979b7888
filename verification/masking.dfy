/** The sensitive-data masking of the security formatter: a recursive rewrite
    of a JSON tree that replaces the value of every entry whose key names a
    secret. */
module Masking {
  import opened Text
  import opened Json

  /** The marker written in place of a sensitive value. */
  const MaskMarker: string := "***MASKED***"

  /** Key fragments that mark an entry as sensitive. */
  const SensitiveFields: set<string> := {
    "password", "password_hash", "token", "secret", "key", "authorization",
    "cookie", "session", "csrf_token", "api_key", "access_token"
  }

  /** A key is sensitive when its lower-cased form contains any denylist word
      (Python's `any(w in key.lower() for w in SENSITIVE_FIELDS)`). */
  predicate IsSensitive(key: string) {
    exists w :: w in SensitiveFields && Contains(Lower(key), w)
  }

  /** The denylist match is case-insensitive substring containment. */
  lemma IsSensitiveIff(key: string)
    ensures IsSensitive(key) <==> exists w :: w in SensitiveFields && IsInfix(w, Lower(key))
  {
    forall w | w in SensitiveFields
      ensures Contains(Lower(key), w) <==> IsInfix(w, Lower(key))
    {
      ContainsIffInfix(Lower(key), w);
    }
  }

  // ------------------------------------------------------------- rewrite

  /** The masked copy of a tree: `_mask_sensitive_data` applied to it. An
      object stays an object with the same keys in the same order, a list
      stays a list of the same length, and a scalar is returned as it is. */
  function Mask(v: Value): (r: Value)
    ensures r.Obj? <==> v.Obj?
    ensures v.Obj? ==> Keys(r.fields) == Keys(v.fields)
    ensures r.Arr? <==> v.Arr?
    ensures v.Arr? ==> |r.items| == |v.items|
    ensures !v.Obj? && !v.Arr? ==> r == v
    decreases v, 2
  {
    match v
    case Obj(fs) => Obj(MaskFields(fs))
    case Arr(xs) => Arr(MaskItems(xs))
    case _ => v
  }

  /** A sensitive entry's value is replaced wholesale; any other entry is masked inside. */
  function MaskField(f: Field): (r: Field)
    ensures r.key == f.key
    ensures IsSensitive(f.key) ==> r.value == Str(MaskMarker)
    ensures !IsSensitive(f.key) ==> r.value == Mask(f.value)
    decreases f, 1
  {
    if IsSensitive(f.key) then Field(f.key, Str(MaskMarker)) else Field(f.key, Mask(f.value))
  }

  function MaskFields(fs: seq<Field>): (r: seq<Field>)
    ensures |r| == |fs|
    ensures forall i :: 0 <= i < |fs| ==> r[i] == MaskField(fs[i])
    decreases fs, 0
  {
    if fs == [] then [] else [MaskField(fs[0])] + MaskFields(fs[1..])
  }

  function MaskItems(xs: seq<Value>): (r: seq<Value>)
    ensures |r| == |xs|
    ensures forall i :: 0 <= i < |xs| ==> r[i] == Mask(xs[i])
    decreases xs, 0
  {
    if xs == [] then [] else [Mask(xs[0])] + MaskItems(xs[1..])
  }

  // ----------------------------------------------------------- properties

  /** Every entry with a sensitive key that is reachable through entries with
      non-sensitive keys and through list items holds the marker. */
  ghost predicate FullyMasked(v: Value)
    decreases v, 2
  {
    match v
    case Obj(fs) => forall i :: 0 <= i < |fs| ==> FieldMasked(fs[i])
    case Arr(xs) => forall i :: 0 <= i < |xs| ==> FullyMasked(xs[i])
    case _ => true
  }

  ghost predicate FieldMasked(f: Field)
    decreases f, 1
  {
    if IsSensitive(f.key) then f.value == Str(MaskMarker) else FullyMasked(f.value)
  }

  /** `w` has the shape of `v` (same constructors, same keys in the same order,
      same list lengths) and equals it everywhere except below sensitive keys. */
  ghost predicate SameOutsideSecrets(v: Value, w: Value)
    decreases v, 2
  {
    match v
    case Obj(fs) =>
      w.Obj? && |w.fields| == |fs|
      && forall i :: 0 <= i < |fs| ==> FieldSameOutsideSecrets(fs[i], w.fields[i])
    case Arr(xs) =>
      w.Arr? && |w.items| == |xs|
      && forall i :: 0 <= i < |xs| ==> SameOutsideSecrets(xs[i], w.items[i])
    case _ => w == v
  }

  ghost predicate FieldSameOutsideSecrets(f: Field, g: Field)
    decreases f, 1
  {
    f.key == g.key && (!IsSensitive(f.key) ==> SameOutsideSecrets(f.value, g.value))
  }

  /** Masking hides every reachable sensitive value and changes nothing else. */
  lemma {:induction false} MaskHidesSecretsOnly(v: Value)
    ensures FullyMasked(Mask(v))
    ensures SameOutsideSecrets(v, Mask(v))
    decreases v, 2
  {
    match v
    case Obj(fs) =>
      forall i | 0 <= i < |fs|
        ensures FieldMasked(MaskField(fs[i]))
        ensures FieldSameOutsideSecrets(fs[i], MaskField(fs[i]))
      {
        FieldHidesSecretsOnly(fs[i]);
      }
    case Arr(xs) =>
      forall i | 0 <= i < |xs|
        ensures FullyMasked(Mask(xs[i]))
        ensures SameOutsideSecrets(xs[i], Mask(xs[i]))
      {
        MaskHidesSecretsOnly(xs[i]);
      }
    case _ =>
  }

  lemma {:induction false} FieldHidesSecretsOnly(f: Field)
    ensures FieldMasked(MaskField(f))
    ensures FieldSameOutsideSecrets(f, MaskField(f))
    decreases f, 1
  {
    if !IsSensitive(f.key) {
      MaskHidesSecretsOnly(f.value);
    }
  }

  /** The two properties above determine the masked tree: any tree that hides
      every secret of `v` and agrees with `v` elsewhere is `Mask(v)`. */
  lemma {:induction false} MaskUnique(v: Value, w: Value)
    requires FullyMasked(w) && SameOutsideSecrets(v, w)
    ensures w == Mask(v)
    decreases v, 2
  {
    match v
    case Obj(fs) =>
      forall i | 0 <= i < |fs| ensures w.fields[i] == MaskField(fs[i]) {
        FieldUnique(fs[i], w.fields[i]);
      }
      assert w.fields == MaskFields(fs);
    case Arr(xs) =>
      forall i | 0 <= i < |xs| ensures w.items[i] == Mask(xs[i]) {
        MaskUnique(xs[i], w.items[i]);
      }
      assert w.items == MaskItems(xs);
    case _ =>
  }

  lemma {:induction false} FieldUnique(f: Field, g: Field)
    requires FieldMasked(g) && FieldSameOutsideSecrets(f, g)
    ensures g == MaskField(f)
    decreases f, 1
  {
    if !IsSensitive(f.key) {
      MaskUnique(f.value, g.value);
    }
  }

  lemma {:induction false} SameOutsideSecretsReflexive(v: Value)
    ensures SameOutsideSecrets(v, v)
    decreases v, 2
  {
    match v
    case Obj(fs) =>
      forall i | 0 <= i < |fs| ensures FieldSameOutsideSecrets(fs[i], fs[i]) {
        SameOutsideSecretsReflexive(fs[i].value);
      }
    case Arr(xs) =>
      forall i | 0 <= i < |xs| ensures SameOutsideSecrets(xs[i], xs[i]) {
        SameOutsideSecretsReflexive(xs[i]);
      }
    case _ =>
  }

  /** A tree that is already fully masked is left unchanged. */
  lemma {:induction false} MaskFixesMasked(v: Value)
    requires FullyMasked(v)
    ensures Mask(v) == v
  {
    SameOutsideSecretsReflexive(v);
    MaskUnique(v, v);
  }

  /** Masking is idempotent. */
  lemma {:induction false} MaskIdempotent(v: Value)
    ensures Mask(Mask(v)) == Mask(v)
  {
    MaskHidesSecretsOnly(v);
    MaskFixesMasked(Mask(v));
  }

  /** Matching ignores case: a key and its lower-cased form are judged alike. */
  lemma SensitiveIgnoresCase(key: string)
    ensures IsSensitive(Lower(key)) == IsSensitive(key)
  {
    assert Lower(Lower(key)) == Lower(key);
  }
}

/** The masking behaviour on the payloads of the formatter's unit tests. */
module MaskingExamples {
  import opened Text
  import opened Json
  import opened Masking

  /** The nested payload of the formatter's unit test: the password hash and
      the nested API key are masked, the user name and the theme survive. The
      keys are passed in so that the solver works from the lemmas about them
      rather than by evaluating the string functions. */
  lemma NestedPayloadExample(username: string, passwordHash: string, preferences: string,
                             apiKey: string, theme: string)
    requires username == "username" && passwordHash == "password_hash"
    requires preferences == "preferences" && apiKey == "api_key" && theme == "theme"
    ensures Mask(Obj([
              Field(username, Str("testuser")),
              Field(passwordHash, Str("hashed_password")),
              Field(preferences, Obj([
                Field(apiKey, Str("secret_key")),
                Field(theme, Str("dark"))]))]))
         == Obj([
              Field(username, Str("testuser")),
              Field(passwordHash, Str(MaskMarker)),
              Field(preferences, Obj([
                Field(apiKey, Str(MaskMarker)),
                Field(theme, Str("dark"))]))])
  {
    UsernameIsNotSensitive(username);
    PasswordHashIsSensitive(passwordHash);
    PreferencesIsNotSensitive(preferences);
    ApiKeyIsSensitive(apiKey);
    ThemeIsNotSensitive(theme);
    MaskTwoLevels(username, passwordHash, preferences, apiKey, theme,
                  Str("testuser"), Str("hashed_password"), Str("secret_key"), Str("dark"));
  }

  /** The shape of the test payload, for any keys judged as in the test. */
  lemma MaskTwoLevels(a: string, b: string, c: string, d: string, e: string,
                      va: Value, vb: Value, vd: Value, ve: Value)
    requires !IsSensitive(a) && IsSensitive(b) && !IsSensitive(c)
    requires IsSensitive(d) && !IsSensitive(e)
    ensures Mask(Obj([Field(a, va), Field(b, vb), Field(c, Obj([Field(d, vd), Field(e, ve)]))]))
         == Obj([Field(a, Mask(va)), Field(b, Str(MaskMarker)),
                 Field(c, Obj([Field(d, Str(MaskMarker)), Field(e, Mask(ve))]))])
  {
    var inner := [Field(d, vd), Field(e, ve)];
    assert MaskFields(inner) == [Field(d, Str(MaskMarker)), Field(e, Mask(ve))];
    var outer := [Field(a, va), Field(b, vb), Field(c, Obj(inner))];
    assert MaskFields(outer) == [MaskField(outer[0]), MaskField(outer[1]), MaskField(outer[2])];
  }

  /** A lower-case denylist word is itself sensitive. */
  lemma SensitiveWord(k: string)
    requires k in SensitiveFields
    requires forall i :: 0 <= i < |k| ==> !('A' <= k[i] <= 'Z')
    ensures IsSensitive(k)
  {
    LowerIsIdentity(k);
    ContainsIffInfix(k, k);
    assert k[0..] == k;
  }

  lemma PasswordHashIsSensitive(k: string)
    requires k == "password_hash"
    ensures IsSensitive(k)
  {
    SensitiveWord(k);
  }

  lemma ApiKeyIsSensitive(k: string)
    requires k == "api_key"
    ensures IsSensitive(k)
  {
    SensitiveWord(k);
  }

  /** A key containing no denylist word is not sensitive. */
  lemma NoDenylistWord(h: string)
    requires !Contains(h, "password")
    requires !Contains(h, "password_hash")
    requires !Contains(h, "token")
    requires !Contains(h, "secret")
    requires !Contains(h, "key")
    requires !Contains(h, "authorization")
    requires !Contains(h, "cookie")
    requires !Contains(h, "session")
    requires !Contains(h, "csrf_token")
    requires !Contains(h, "api_key")
    requires !Contains(h, "access_token")
    ensures !(exists w :: w in SensitiveFields && Contains(h, w))
  {
  }

  /** Every denylist word has one of `p`, `t`, `k`, `c`, `i`. */
  lemma WithoutPTKCI(h: string)
    requires 'p' !in h && 't' !in h && 'k' !in h && 'c' !in h && 'i' !in h
    requires forall i :: 0 <= i < |h| ==> !('A' <= h[i] <= 'Z')
    ensures !IsSensitive(h)
  {
    LowerIsIdentity(h);
    MissingCharNoMatch(h, "password", 'p');
    MissingCharNoMatch(h, "password_hash", 'p');
    MissingCharNoMatch(h, "token", 't');
    MissingCharNoMatch(h, "secret", 'c');
    MissingCharNoMatch(h, "key", 'k');
    MissingCharNoMatch(h, "authorization", 't');
    MissingCharNoMatch(h, "cookie", 'c');
    MissingCharNoMatch(h, "session", 'i');
    MissingCharNoMatch(h, "csrf_token", 'c');
    MissingCharNoMatch(h, "api_key", 'p');
    MissingCharNoMatch(h, "access_token", 'c');
    NoDenylistWord(h);
  }

  /** Every denylist word has one of `a`, `t`, `k`, `i`. */
  lemma WithoutATKI(h: string)
    requires 'a' !in h && 't' !in h && 'k' !in h && 'i' !in h
    requires forall i :: 0 <= i < |h| ==> !('A' <= h[i] <= 'Z')
    ensures !IsSensitive(h)
  {
    LowerIsIdentity(h);
    MissingCharNoMatch(h, "password", 'a');
    MissingCharNoMatch(h, "password_hash", 'a');
    MissingCharNoMatch(h, "token", 't');
    MissingCharNoMatch(h, "secret", 't');
    MissingCharNoMatch(h, "key", 'k');
    MissingCharNoMatch(h, "authorization", 'a');
    MissingCharNoMatch(h, "cookie", 'k');
    MissingCharNoMatch(h, "session", 'i');
    MissingCharNoMatch(h, "csrf_token", 't');
    MissingCharNoMatch(h, "api_key", 'a');
    MissingCharNoMatch(h, "access_token", 'a');
    NoDenylistWord(h);
  }

  /** Every denylist word has one of `p`, `o`, `s`, `k`, `a`, `c`. */
  lemma WithoutPOSKAC(h: string)
    requires 'p' !in h && 'o' !in h && 's' !in h && 'k' !in h && 'a' !in h && 'c' !in h
    requires forall i :: 0 <= i < |h| ==> !('A' <= h[i] <= 'Z')
    ensures !IsSensitive(h)
  {
    LowerIsIdentity(h);
    MissingCharNoMatch(h, "password", 'p');
    MissingCharNoMatch(h, "password_hash", 'p');
    MissingCharNoMatch(h, "token", 'o');
    MissingCharNoMatch(h, "secret", 's');
    MissingCharNoMatch(h, "key", 'k');
    MissingCharNoMatch(h, "authorization", 'a');
    MissingCharNoMatch(h, "cookie", 'c');
    MissingCharNoMatch(h, "session", 's');
    MissingCharNoMatch(h, "csrf_token", 'c');
    MissingCharNoMatch(h, "api_key", 'a');
    MissingCharNoMatch(h, "access_token", 'a');
    NoDenylistWord(h);
  }

  lemma UsernameIsNotSensitive(k: string)
    requires k == "username"
    ensures !IsSensitive(k)
  {
    WithoutPTKCI(k);
  }

  lemma PreferencesIsNotSensitive(k: string)
    requires k == "preferences"
    ensures !IsSensitive(k)
  {
    WithoutATKI(k);
  }

  lemma ThemeIsNotSensitive(k: string)
    requires k == "theme"
    ensures !IsSensitive(k)
  {
    WithoutPOSKAC(k);
  }

  lemma LowerIsIdentity(s: string)
    requires forall i :: 0 <= i < |s| ==> !('A' <= s[i] <= 'Z')
    ensures Lower(s) == s
  {
  }
}
