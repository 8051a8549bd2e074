/** Encryption of credentials at rest (backend/app/core/credential_crypto.py:35-57,
    157-214 and backend/app/services/course/task_store.py:15-74), over an abstract
    cipher. */
module Credentials {
  import opened Wrappers

  datatype Value = Str(text: string) | Dict(fields: Payload) | Other(id: int)

  type Payload = map<string, Value>

  const PREFIX := "fernet:"
  const SENSITIVE := ["password", "user_password", "third_party_password"]
  const CONTAINER := "credentials"

  /** How decrypting a token ends: with its text, with the library's
      invalid-token error, or with any other exception. */
  datatype Opened = Plain(text: string) | InvalidToken | Raises

  /** The development fallback, or a real cipher.  Encryption takes a nonce and
      may raise (None). */
  datatype Cipher = Noop | Fernet(seal: (nat, string) -> Option<string>, open: string -> Opened)

  ghost predicate Correct(c: Cipher) {
    c.Fernet? ==> forall n: nat, x: string :: c.seal(n, x).Some? ==> c.open(c.seal(n, x).value) == Plain(x)
  }

  function EncryptStr(c: Cipher, nonce: nat, plain: string): Option<string> {
    if plain == "" || PREFIX <= plain || c.Noop? then Some(plain)
    else
      match c.seal(nonce, plain)
      case None => None
      case Some(token) => Some(PREFIX + token)
  }

  function DecryptStr(c: Cipher, value: string): Opened {
    if !(PREFIX <= value) || c.Noop? then Plain(value) else c.open(value[|PREFIX|..])
  }

  /** A field's value after encryption; None if the cipher raises. */
  function Seal(c: Cipher, nonce: nat, v: Value): Option<Value> {
    if v.Str? && v.text != "" then
      match EncryptStr(c, nonce, v.text)
      case None => None
      case Some(t) => Some(Str(t))
    else Some(v)
  }

  /** A field's value after decryption: an invalid token stays as it is; None if
      anything else is raised. */
  function Unseal(c: Cipher, v: Value): Option<Value> {
    if v.Str? && PREFIX <= v.text then
      match DecryptStr(c, v.text)
      case Plain(t) => Some(Str(t))
      case InvalidToken => Some(v)
      case Raises => None
    else Some(v)
  }

  /** `encrypt_dict_fields`: the named fields in turn, all or nothing. */
  function EncryptFields(c: Cipher, nonce: string -> nat, data: Payload, fields: seq<string>): Option<Payload> {
    if fields == [] then Some(data)
    else if fields[0] !in data then EncryptFields(c, nonce, data, fields[1..])
    else
      match Seal(c, nonce(fields[0]), data[fields[0]])
      case None => None
      case Some(v) => EncryptFields(c, nonce, data[fields[0] := v], fields[1..])
  }

  function DecryptFields(c: Cipher, data: Payload, fields: seq<string>): Option<Payload> {
    if fields == [] then Some(data)
    else if fields[0] !in data then DecryptFields(c, data, fields[1..])
    else
      match Unseal(c, data[fields[0]])
      case None => None
      case Some(v) => DecryptFields(c, data[fields[0] := v], fields[1..])
  }

  function Without(data: Payload, fields: seq<string>): Payload { map k | k in data && k !in fields :: data[k] }

  /** One level of `_encrypt_sensitive`: fields that cannot be encrypted are dropped. */
  function EncryptLevel(c: Cipher, nonce: string -> nat, data: Payload): Payload {
    match EncryptFields(c, nonce, data, SENSITIVE)
    case Some(e) => e
    case None => Without(data, SENSITIVE)
  }

  /** One level of `_decrypt_sensitive`: if decrypting raises the level stays as it is. */
  function DecryptLevel(c: Cipher, data: Payload): Payload {
    match DecryptFields(c, data, SENSITIVE)
    case Some(d) => d
    case None => data
  }

  function EncryptSensitive(c: Cipher, nonce: string -> nat, inner: string -> nat, p: Payload): Payload {
    var e := EncryptLevel(c, nonce, p);
    if CONTAINER in e && e[CONTAINER].Dict? then e[CONTAINER := Dict(EncryptLevel(c, inner, e[CONTAINER].fields))]
    else e
  }

  function DecryptSensitive(c: Cipher, p: Payload): Payload {
    var d := DecryptLevel(c, p);
    if CONTAINER in d && d[CONTAINER].Dict? then d[CONTAINER := Dict(DecryptLevel(c, d[CONTAINER].fields))] else d
  }

  // ------------------------------------------------------- field by field

  predicate NoRepeats(fields: seq<string>) { forall i, j :: 0 <= i < j < |fields| ==> fields[i] != fields[j] }

  /** Encryption succeeds when it does for every named field, and changes each by itself. */
  lemma {:induction false} EncryptPointwise(c: Cipher, nonce: string -> nat, data: Payload, fields: seq<string>)
    requires NoRepeats(fields)
    ensures var e := EncryptFields(c, nonce, data, fields);
            && (e.Some? <==> forall f :: f in fields && f in data ==> Seal(c, nonce(f), data[f]).Some?)
            && (e.Some? ==>
                  && e.value.Keys == data.Keys
                  && (forall f :: f in data && f in fields ==> Some(e.value[f]) == Seal(c, nonce(f), data[f]))
                  && (forall f :: f in data && f !in fields ==> e.value[f] == data[f]))
  {
    if fields != [] {
      var f := fields[0];
      assert f !in fields[1..];
      assert forall g :: g in fields <==> g == f || g in fields[1..];
      if f !in data {
        EncryptPointwise(c, nonce, data, fields[1..]);
      } else if Seal(c, nonce(f), data[f]).Some? {
        EncryptPointwise(c, nonce, data[f := Seal(c, nonce(f), data[f]).value], fields[1..]);
      }
    }
  }

  lemma {:induction false} DecryptPointwise(c: Cipher, data: Payload, fields: seq<string>)
    requires NoRepeats(fields)
    ensures var d := DecryptFields(c, data, fields);
            && (d.Some? <==> forall f :: f in fields && f in data ==> Unseal(c, data[f]).Some?)
            && (d.Some? ==>
                  && d.value.Keys == data.Keys
                  && (forall f :: f in data && f in fields ==> Some(d.value[f]) == Unseal(c, data[f]))
                  && (forall f :: f in data && f !in fields ==> d.value[f] == data[f]))
  {
    if fields != [] {
      var f := fields[0];
      assert f !in fields[1..];
      assert forall g :: g in fields <==> g == f || g in fields[1..];
      if f !in data {
        DecryptPointwise(c, data, fields[1..]);
      } else if Unseal(c, data[f]).Some? {
        DecryptPointwise(c, data[f := Unseal(c, data[f]).value], fields[1..]);
      }
    }
  }

  /** Not a bare secret: no text, empty, or carrying the prefix. */
  predicate Covered(v: Value) { v.Str? ==> v.text == "" || PREFIX <= v.text }

  lemma PrefixStarts(token: string)
    ensures PREFIX <= PREFIX + token && (PREFIX + token)[|PREFIX|..] == token
  {
  }

  lemma SealCovers(c: Cipher, nonce: nat, v: Value)
    requires c.Fernet? && Seal(c, nonce, v).Some?
    ensures Covered(Seal(c, nonce, v).value)
    ensures Covered(v) ==> Seal(c, nonce, v) == Some(v)
  {
    if v.Str? && v.text != "" && !(PREFIX <= v.text) { PrefixStarts(c.seal(nonce, v.text).value); }
  }

  // --------------------------------------------------------- fail closed

  predicate LevelCovered(data: Payload) { forall f :: f in SENSITIVE && f in data ==> Covered(data[f]) }

  /** A level leaves the cipher without a bare secret, even if encrypting raised
      half way, and with every other field as it was. */
  lemma LevelFailsClosed(c: Cipher, nonce: string -> nat, data: Payload)
    requires c.Fernet?
    ensures LevelCovered(EncryptLevel(c, nonce, data))
    ensures Without(EncryptLevel(c, nonce, data), SENSITIVE) == Without(data, SENSITIVE)
    ensures LevelCovered(data) ==> EncryptLevel(c, nonce, data) == data
  {
    EncryptPointwise(c, nonce, data, SENSITIVE);
    forall f | f in SENSITIVE && f in data && Seal(c, nonce(f), data[f]).Some?
      ensures Covered(Seal(c, nonce(f), data[f]).value)
              && (Covered(data[f]) ==> Seal(c, nonce(f), data[f]) == Some(data[f]))
    {
      SealCovers(c, nonce(f), data[f]);
    }
    if LevelCovered(data) {
      assert forall f :: f in SENSITIVE && f in data ==> Seal(c, nonce(f), data[f]).Some?;
    }
  }

  lemma SameElsewhere(a: Payload, b: Payload, f: string)
    requires Without(a, SENSITIVE) == Without(b, SENSITIVE) && f !in SENSITIVE
    ensures (f in a <==> f in b) && (f in a ==> a[f] == b[f])
    ensures Without(a, SENSITIVE + [f]) == Without(b, SENSITIVE + [f])
  {
    assert forall g :: g in Without(a, SENSITIVE) <==> g in Without(b, SENSITIVE);
    forall g | g !in SENSITIVE ensures (g in a <==> g in b) && (g in a ==> a[g] == b[g]) {
      assert g in Without(a, SENSITIVE) <==> g in a;
      assert g in Without(b, SENSITIVE) <==> g in b;
      if g in a { assert Without(a, SENSITIVE)[g] == Without(b, SENSITIVE)[g]; }
    }
  }

  /** With a real cipher every non-empty sensitive string that is stored carries
      the prefix, at both levels and whatever raises; other fields are
      untouched; and encrypting again, with any nonces, changes nothing. */
  lemma EncryptionFailsClosed(c: Cipher, nonce: string -> nat, inner: string -> nat,
                            nonce': string -> nat, inner': string -> nat, p: Payload)
    requires c.Fernet?
    ensures var e := EncryptSensitive(c, nonce, inner, p);
            && LevelCovered(e)
            && (CONTAINER in e && e[CONTAINER].Dict? ==> LevelCovered(e[CONTAINER].fields))
            && Without(e, SENSITIVE + [CONTAINER]) == Without(p, SENSITIVE + [CONTAINER])
            && (CONTAINER in e <==> CONTAINER in p)
            && (CONTAINER in p ==>
                  if p[CONTAINER].Dict?
                  then e[CONTAINER].Dict?
                       && Without(e[CONTAINER].fields, SENSITIVE) == Without(p[CONTAINER].fields, SENSITIVE)
                  else e[CONTAINER] == p[CONTAINER])
            && EncryptSensitive(c, nonce', inner', e) == e
  {
    var top := EncryptLevel(c, nonce, p);
    LevelFailsClosed(c, nonce, p);
    SameElsewhere(top, p, CONTAINER);
    var e := EncryptSensitive(c, nonce, inner, p);
    if CONTAINER in top && top[CONTAINER].Dict? {
      LevelFailsClosed(c, inner, top[CONTAINER].fields);
      LevelFailsClosed(c, inner', e[CONTAINER].fields);
    }
    LevelFailsClosed(c, nonce', e);
  }

  /** A field that holds a secret, by its name. */
  predicate HoldsSecret(f: string) { f == "password" || f == "user_password" || f == "third_party_password" }

  /** No secret of this level is bare. */
  ghost predicate NoneBare(data: Payload) {
    forall f :: f in data && HoldsSecret(f) && data[f].Str? && data[f].text != "" ==> "fernet:" <= data[f].text
  }

  /** Two levels that agree outside the fields that hold secrets and, at the top,
      the container. */
  ghost predicate SameOutside(a: Payload, b: Payload, top: bool) {
    forall f :: !HoldsSecret(f) && !(top && f == "credentials") ==> (f in a <==> f in b) && (f in a ==> a[f] == b[f])
  }

  /** What may be stored for a payload: no bare secret at the top or among its
      credentials, and everything else as it was. */
  ghost predicate Storable(stored: Payload, p: Payload) {
    && NoneBare(stored) && SameOutside(stored, p, true)
    && ("credentials" in stored <==> "credentials" in p)
    && ("credentials" in p && !p["credentials"].Dict? ==> stored["credentials"] == p["credentials"])
    && ("credentials" in p && p["credentials"].Dict? ==>
          && stored["credentials"].Dict?
          && NoneBare(stored["credentials"].fields)
          && SameOutside(stored["credentials"].fields, p["credentials"].fields, false))
  }

  lemma SensitiveNames(f: string)
    ensures f in SENSITIVE <==> HoldsSecret(f)
    ensures f in SENSITIVE + [CONTAINER] <==> HoldsSecret(f) || f == "credentials"
  {
    assert f in SENSITIVE <==> f == SENSITIVE[0] || f == SENSITIVE[1] || f == SENSITIVE[2];
    assert f in SENSITIVE + [CONTAINER] <==> f in SENSITIVE || f in [CONTAINER];
  }

  lemma CoveredLevels(data: Payload)
    requires LevelCovered(data)
    ensures NoneBare(data)
  {
    forall f | f in data && HoldsSecret(f) && data[f].Str? && data[f].text != "" ensures "fernet:" <= data[f].text {
      SensitiveNames(f);
    }
  }

  lemma WithoutAgree(a: Payload, b: Payload, fields: seq<string>, f: string)
    requires Without(a, fields) == Without(b, fields) && f !in fields
    ensures (f in a <==> f in b) && (f in a ==> a[f] == b[f])
  {
    assert f in Without(a, fields) <==> f in a;
    assert f in Without(b, fields) <==> f in b;
    if f in a { assert Without(a, fields)[f] == Without(b, fields)[f]; }
  }

  /** The same, name by name: which fields count as secrets, where they are looked
      for and what marks an encrypted one. */
  lemma StoredIsStorable(c: Cipher, nonce: string -> nat, inner: string -> nat, p: Payload)
    requires c.Fernet?
    ensures Storable(EncryptSensitive(c, nonce, inner, p), p)
  {
    hide EncryptSensitive, LevelCovered, Without;
    var e := EncryptSensitive(c, nonce, inner, p);
    EncryptionFailsClosed(c, nonce, inner, nonce, inner, p);
    CoveredLevels(e);
    forall f | !HoldsSecret(f) && f != "credentials" ensures (f in e <==> f in p) && (f in e ==> e[f] == p[f]) {
      SensitiveNames(f);
      WithoutAgree(e, p, SENSITIVE + [CONTAINER], f);
    }
    assert CONTAINER == "credentials";
    if CONTAINER in p && p[CONTAINER].Dict? {
      CoveredLevels(e[CONTAINER].fields);
      forall f | !HoldsSecret(f)
        ensures (f in e[CONTAINER].fields <==> f in p[CONTAINER].fields)
             && (f in e[CONTAINER].fields ==> e[CONTAINER].fields[f] == p[CONTAINER].fields[f])
      {
        SensitiveNames(f);
        WithoutAgree(e[CONTAINER].fields, p[CONTAINER].fields, SENSITIVE, f);
      }
    }
  }

  // ----------------------------------------------------------- round trip

  /** A value that makes decryption raise something other than an invalid token. */
  predicate Breaks(c: Cipher, v: Value) { Unseal(c, v).None? }

  /** Every secret of the level can be encrypted. */
  predicate LevelSeals(c: Cipher, nonce: string -> nat, data: Payload) {
    forall f :: f in SENSITIVE && f in data ==> Seal(c, nonce(f), data[f]).Some?
  }

  /** What a level needs to come back: all of its secrets can be encrypted; and if
      one of its prefixed strings breaks the decryption, no other secret may have
      been encrypted, otherwise every prefixed string is a token of itself or not
      a token at all. */
  predicate LevelReturns(c: Cipher, nonce: string -> nat, data: Payload) {
    && LevelSeals(c, nonce, data)
    && (if exists f :: f in SENSITIVE && f in data && Breaks(c, data[f]) then LevelCovered(data)
        else forall f :: f in SENSITIVE && f in data && data[f].Str? && PREFIX <= data[f].text ==>
               Unseal(c, data[f]) == Some(data[f]))
  }

  /** One field: a bare secret comes back, anything else is only decrypted. */
  lemma FieldThereAndBack(c: Cipher, nonce: nat, v: Value)
    requires c.Fernet? && Correct(c) && Seal(c, nonce, v).Some?
    ensures var e := Seal(c, nonce, v);
            && Unseal(c, e.value) == (if Covered(v) then Unseal(c, v) else Some(v))
            && (e.value == v <==> Covered(v))
  {
    if !Covered(v) {
      var token := c.seal(nonce, v.text);
      assert token.Some?;
      PrefixStarts(token.value);
    }
  }

  /** A level once encrypted, field by field. */
  lemma SealedLevel(c: Cipher, nonce: string -> nat, data: Payload)
    requires c.Fernet? && Correct(c) && LevelSeals(c, nonce, data)
    ensures var e := EncryptLevel(c, nonce, data);
            && e.Keys == data.Keys
            && (forall f :: f in data && f !in SENSITIVE ==> e[f] == data[f])
            && (forall f :: f in data && f in SENSITIVE ==>
                  && Unseal(c, e[f]) == (if Covered(data[f]) then Unseal(c, data[f]) else Some(data[f]))
                  && (e[f] == data[f] <==> Covered(data[f])))
  {
    EncryptPointwise(c, nonce, data, SENSITIVE);
    forall f | f in SENSITIVE && f in data
      ensures var e := Seal(c, nonce(f), data[f]);
              && e.Some? && Unseal(c, e.value) == (if Covered(data[f]) then Unseal(c, data[f]) else Some(data[f]))
              && (e.value == data[f] <==> Covered(data[f]))
    {
      FieldThereAndBack(c, nonce(f), data[f]);
    }
  }

  /** Decryption of a level, field by field, unless a field breaks it. */
  lemma OpenedLevel(c: Cipher, e: Payload)
    ensures var d := DecryptLevel(c, e);
            if exists f :: f in SENSITIVE && f in e && Breaks(c, e[f]) then d == e
            else && d.Keys == e.Keys
                 && (forall f :: f in e && f !in SENSITIVE ==> d[f] == e[f])
                 && (forall f :: f in e && f in SENSITIVE ==> Some(d[f]) == Unseal(c, e[f]))
  {
    DecryptPointwise(c, e, SENSITIVE);
  }

  /** A level with a secret that cannot be encrypted loses its sensitive fields. */
  lemma UnsealedLevel(c: Cipher, nonce: string -> nat, data: Payload)
    requires !LevelSeals(c, nonce, data)
    ensures DecryptLevel(c, EncryptLevel(c, nonce, data)) == Without(data, SENSITIVE)
    ensures Without(data, SENSITIVE) != data
  {
    EncryptPointwise(c, nonce, data, SENSITIVE);
    OpenedLevel(c, Without(data, SENSITIVE));
  }

  lemma LevelRoundTrip(c: Cipher, nonce: string -> nat, data: Payload)
    requires c.Fernet? && Correct(c)
    ensures DecryptLevel(c, EncryptLevel(c, nonce, data)) == data <==> LevelReturns(c, nonce, data)
    ensures Without(DecryptLevel(c, EncryptLevel(c, nonce, data)), SENSITIVE) == Without(data, SENSITIVE)
  {
    hide EncryptLevel, DecryptLevel, Correct, LevelSeals, Seal;
    if !LevelSeals(c, nonce, data) {
      UnsealedLevel(c, nonce, data);
    } else {
      var e := EncryptLevel(c, nonce, data);
      SealedLevel(c, nonce, data);
      OpenedLevel(c, e);
      var d := DecryptLevel(c, e);
      assert forall f :: f in SENSITIVE && f in data ==> (Breaks(c, e[f]) <==> Breaks(c, data[f]));
      if f :| f in SENSITIVE && f in data && Breaks(c, data[f]) {
        assert d == e;
        if LevelCovered(data) { assert e == data; }
      } else {
        if LevelReturns(c, nonce, data) { assert d == data; }
      }
    }
  }

  lemma NoopRoundTrip(nonce: string -> nat, data: Payload)
    ensures EncryptLevel(Noop, nonce, data) == data && DecryptLevel(Noop, data) == data
    ensures LevelReturns(Noop, nonce, data)
  {
    EncryptPointwise(Noop, nonce, data, SENSITIVE);
    DecryptPointwise(Noop, data, SENSITIVE);
    forall f | f in data
      ensures Seal(Noop, nonce(f), data[f]) == Some(data[f]) && Unseal(Noop, data[f]) == Some(data[f]) {
    }
  }

  /** The container is no sensitive field: what it holds does not affect its level. */
  lemma ContainerApart(c: Cipher, data: Payload, v: Value)
    requires CONTAINER in data
    ensures DecryptLevel(c, data[CONTAINER := v]) == DecryptLevel(c, data)[CONTAINER := v]
  {
    hide DecryptLevel, Unseal, Breaks;
    var with := data[CONTAINER := v];
    OpenedLevel(c, data);
    OpenedLevel(c, with);
    assert forall f :: f in SENSITIVE && f in data ==> with[f] == data[f];
    assert (exists f :: f in SENSITIVE && f in with && Breaks(c, with[f]))
           <==> (exists f :: f in SENSITIVE && f in data && Breaks(c, data[f]));
  }

  /** What the whole payload needs to come back. */
  predicate Returns(c: Cipher, nonce: string -> nat, inner: string -> nat, p: Payload) {
    && LevelReturns(c, nonce, p)
    && (CONTAINER in p && p[CONTAINER].Dict? ==> LevelReturns(c, inner, p[CONTAINER].fields))
  }

  /** Exactly when a payload comes back: it does if and only if both of its
      levels return; in particular whenever no sensitive string already starts
      with the prefix and every one can be encrypted. */
  lemma RoundTripExactlyWhen(c: Cipher, nonce: string -> nat, inner: string -> nat, p: Payload)
    requires Correct(c)
    ensures DecryptSensitive(c, EncryptSensitive(c, nonce, inner, p)) == p <==> Returns(c, nonce, inner, p)
  {
    hide EncryptLevel, DecryptLevel, Correct, LevelReturns;
    if c.Noop? {
      NoopRoundTrip(nonce, p);
      if CONTAINER in p && p[CONTAINER].Dict? {
        NoopRoundTrip(inner, p[CONTAINER].fields);
        assert p[CONTAINER := Dict(p[CONTAINER].fields)] == p;
      }
    } else {
      LevelRoundTrip(c, nonce, p);
      var top := EncryptLevel(c, nonce, p);
      LevelFailsClosed(c, nonce, p);
      SameElsewhere(top, p, CONTAINER);
      SameElsewhere(DecryptLevel(c, top), p, CONTAINER);
      if CONTAINER in p && p[CONTAINER].Dict? {
        LevelRoundTrip(c, inner, p[CONTAINER].fields);
        var sealed := EncryptLevel(c, inner, p[CONTAINER].fields);
        ContainerApart(c, top, Dict(sealed));
        var d := DecryptSensitive(c, EncryptSensitive(c, nonce, inner, p));
        var (plain, nested) := (DecryptLevel(c, top), DecryptLevel(c, sealed));
        assert d == plain[CONTAINER := Dict(nested)];
        assert plain[CONTAINER := p[CONTAINER]] == plain;
        if d == p {
          assert plain == p[CONTAINER := p[CONTAINER]];
        }
      }
    }
  }

  /** The promised case: no sensitive string starts with the prefix. */
  lemma UnprefixedReturns(c: Cipher, nonce: string -> nat, data: Payload)
    requires forall f :: f in SENSITIVE && f in data && data[f].Str? ==> !(PREFIX <= data[f].text)
    ensures LevelReturns(c, nonce, data) <==> LevelSeals(c, nonce, data)
  {
  }

  /** A password that looks like the token of another string comes back as that string. */
  lemma PrefixedComesBackOpened(c: Cipher, nonce: string -> nat, inner: string -> nat, n: nat, x: string)
    requires c.Fernet? && Correct(c) && c.seal(n, x).Some?
    ensures var p := map["password" := Str(PREFIX + c.seal(n, x).value)];
            var d := DecryptSensitive(c, EncryptSensitive(c, nonce, inner, p));
            d == map["password" := Str(x)] && (!(PREFIX <= x) ==> d != p)
  {
    var token := c.seal(n, x).value;
    PrefixStarts(token);
    var p := map["password" := Str(PREFIX + token)];
    LevelFailsClosed(c, nonce, p);
    assert EncryptSensitive(c, nonce, inner, p) == p;
    OpenedLevel(c, p);
    assert Unseal(c, p["password"]) == Some(Str(x));
    assert DecryptLevel(c, p) == map["password" := Str(x)];
  }

  /** A password that cannot be encrypted, a lone surrogate say, does not come back at all. */
  lemma UnencryptableIsDropped(c: Cipher, nonce: string -> nat, inner: string -> nat, x: string)
    requires c.Fernet? && x != "" && !(PREFIX <= x) && c.seal(nonce("password"), x).None?
    ensures DecryptSensitive(c, EncryptSensitive(c, nonce, inner, map["password" := Str(x)])) == map[]
  {
    var p := map["password" := Str(x)];
    assert !LevelSeals(c, nonce, p);
    EncryptPointwise(c, nonce, p, SENSITIVE);
    assert EncryptLevel(c, nonce, p) == map[];
    OpenedLevel(c, map[]);
  }

  // --------------------------------------------------- the running program

  /** The loop of `encrypt_dict_fields` over a copy of the data. */
  method EncryptDictFields(c: Cipher, nonce: string -> nat, data: Payload, fields: seq<string>)
    returns (out: Option<Payload>)
    ensures out == EncryptFields(c, nonce, data, fields)
  {
    var copy := data;
    for i := 0 to |fields|
      invariant EncryptFields(c, nonce, data, fields) == EncryptFields(c, nonce, copy, fields[i..])
    {
      var field := fields[i];
      if field in copy && copy[field].Str? && copy[field].text != "" {
        var sealed := EncryptStr(c, nonce(field), copy[field].text);
        if sealed.None? {
          return None;
        }
        copy := copy[field := Str(sealed.value)];
      } else if field in copy {
        assert copy[field := copy[field]] == copy;
      }
    }
    return Some(copy);
  }

  method DecryptDictFields(c: Cipher, data: Payload, fields: seq<string>) returns (out: Option<Payload>)
    ensures out == DecryptFields(c, data, fields)
  {
    var copy := data;
    for i := 0 to |fields|
      invariant DecryptFields(c, data, fields) == DecryptFields(c, copy, fields[i..])
    {
      var field := fields[i];
      if field in copy {
        assert copy[field := copy[field]] == copy;
        if copy[field].Str? && PREFIX <= copy[field].text {
          match DecryptStr(c, copy[field].text)
          case Plain(text) => copy := copy[field := Str(text)];
          case InvalidToken =>
          case Raises => return None;
        }
      }
    }
    return Some(copy);
  }

  /** What is persisted: with a real cipher no bare secret, whatever raises. */
  method EncryptForStorage(c: Cipher, nonce: string -> nat, inner: string -> nat, p: Payload) returns (stored: Payload)
    ensures stored == EncryptSensitive(c, nonce, inner, p)
    ensures c.Fernet? ==> Storable(stored, p)
  {
    var top := EncryptDictFields(c, nonce, p, SENSITIVE);
    stored := if top.Some? then top.value else Without(p, SENSITIVE);
    if CONTAINER in stored && stored[CONTAINER].Dict? {
      var nested := EncryptDictFields(c, inner, stored[CONTAINER].fields, SENSITIVE);
      stored := stored[CONTAINER := Dict(if nested.Some? then nested.value
                        else Without(stored[CONTAINER].fields, SENSITIVE))];
    }
    if c.Fernet? {
      StoredIsStorable(c, nonce, inner, p);
    }
  }
}
