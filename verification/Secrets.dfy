/** Encrypted configuration trees and router credentials, over an abstract cipher. */
module Secrets {
  import opened Text
  import opened Wrappers

  /** `seal` is randomised, so it also takes the number of the call; `unseal` is partial. */
  datatype Cipher = Cipher(seal: (string, nat) -> string, unseal: string -> Option<string>)

  /** All that is assumed of the cipher. */
  ghost predicate Sound(c: Cipher) {
    forall s, n :: c.unseal(c.seal(s, n)) == Some(s)
  }

  /** A configuration value. Lists are carried along but never looked into. */
  datatype Value = Str(s: string) | Dict(fields: map<string, Value>) | List(items: seq<Value>) | Other(tag: int)

  predicate StartsWith(s: string, t: string) {
    |t| <= |s| && s[..|t|] == t
  }

  predicate Contains(s: string, t: string) {
    StartsWith(s, t) || (s != [] && Contains(s[1..], t))
  }

  predicate SensitiveKey(key: string) {
    var k := Lower(key);
    Contains(k, "password") || Contains(k, "secret") || Contains(k, "key")
    || Contains(k, "token") || Contains(k, "credential")
  }

  /** The key holds the marker somewhere, in any case. */
  ghost predicate Holds(key: string, marker: string) {
    exists a, m, b :: key == a + m + b && Lower(m) == marker
  }

  ghost predicate Marked(key: string) {
    || Holds(key, "password") || Holds(key, "secret") || Holds(key, "key")
    || Holds(key, "token") || Holds(key, "credential")
  }

  lemma {:induction false} ContainsParts(s: string, t: string) returns (a: string, b: string)
    requires Contains(s, t)
    ensures s == a + t + b
  {
    if StartsWith(s, t) {
      a, b := [], s[|t|..];
    } else {
      a, b := ContainsParts(s[1..], t);
      a := [s[0]] + a;
      assert s == [s[0]] + s[1..];
    }
  }

  lemma {:induction false} PartsContain(a: string, t: string, b: string)
    ensures Contains(a + t + b, t)
  {
    if a == [] {
      assert (a + t + b)[..|t|] == t;
    } else {
      PartsContain(a[1..], t, b);
      assert (a + t + b)[1..] == a[1..] + t + b;
    }
  }

  lemma HoldsIff(key: string, marker: string)
    ensures Contains(Lower(key), marker) <==> Holds(key, marker)
  {
    if Contains(Lower(key), marker) {
      var a, b := ContainsParts(Lower(key), marker);
      var m := key[|a|..|a| + |marker|];
      assert Lower(m) == Lower(key)[|a|..|a| + |marker|] == marker;
      assert key == key[..|a|] + m + key[|a| + |marker|..];
    }
    if a, m, b :| key == a + m + b && Lower(m) == marker {
      assert Lower(key) == Lower(a) + Lower(m) + Lower(b);
      PartsContain(Lower(a), marker, Lower(b));
    }
  }

  /** A key is sensitive exactly if it holds "password", "secret", "key", "token" or
      "credential" somewhere, in any case. */
  lemma SensitiveIff(key: string)
    ensures SensitiveKey(key) <==> Marked(key)
  {
    HoldsIff(key, "password");
    HoldsIff(key, "secret");
    HoldsIff(key, "key");
    HoldsIff(key, "token");
    HoldsIff(key, "credential");
  }

  // ---------------------------------------------------------------- what the loops compute

  ghost predicate TokenOf(c: Cipher, plain: string, token: string) {
    exists n: nat :: token == c.seal(plain, n)
  }

  /** y is x with every string under a sensitive key replaced by some token of it, through
      nested dictionaries and nowhere else. */
  ghost predicate Sealed(c: Cipher, x: map<string, Value>, y: map<string, Value>)
    decreases Dict(x), 0
  {
    x.Keys == y.Keys && forall k | k in x :: SealedAt(c, k, x[k], y[k])
  }

  ghost predicate SealedAt(c: Cipher, key: string, v: Value, w: Value)
    decreases v, 1
  {
    match v
    case Str(s) => if SensitiveKey(key) then w.Str? && TokenOf(c, s, w.s) else w == v
    case Dict(fields) => w.Dict? && Sealed(c, fields, w.fields)
    case _ => w == v
  }

  /** What reading back gives. */
  function Opened(c: Cipher, y: map<string, Value>): map<string, Value>
    decreases Dict(y), 0
  {
    map k | k in y :: OpenedAt(c, k, y[k])
  }

  function OpenedAt(c: Cipher, key: string, w: Value): Value
    decreases w, 1
  {
    match w
    case Str(s) =>
      if !SensitiveKey(key) then w
      else (match c.unseal(s) case None => w case Some(plain) => Str(plain))
    case Dict(fields) => Dict(Opened(c, fields))
    case _ => w
  }

  class SecretsManager {
    const cipher: Cipher
    var calls: nat

    constructor (cipher: Cipher)
      ensures this.cipher == cipher && calls == 0
    {
      this.cipher := cipher;
      calls := 0;
    }

    method Encrypt(plaintext: string) returns (token: string)
      modifies this
      ensures token == cipher.seal(plaintext, old(calls)) && calls == old(calls) + 1
    {
      token := cipher.seal(plaintext, calls);
      calls := calls + 1;
    }

    /** The loop visits the keys in any order. */
    method EncryptDict(data: map<string, Value>) returns (result: map<string, Value>)
      modifies this
      ensures Sealed(cipher, data, result)
      ensures calls >= old(calls)
      decreases Dict(data)
    {
      result := map[];
      var rest := data.Keys;
      while rest != {}
        invariant rest <= data.Keys && result.Keys == data.Keys - rest
        invariant forall k | k in result :: SealedAt(cipher, k, data[k], result[k])
        invariant calls >= old(calls)
        decreases |rest|
      {
        var k :| k in rest;
        var value := data[k];
        match data[k] {
          case Str(s) =>
            if SensitiveKey(k) {
              var token := Encrypt(s);
              assert TokenOf(cipher, s, token);
              value := Str(token);
            }
          case Dict(fields) =>
            var inner := EncryptDict(fields);
            value := Dict(inner);
          case _ =>
        }
        assert SealedAt(cipher, k, data[k], value);
        result := result[k := value];
        rest := rest - {k};
      }
    }

    method DecryptDict(data: map<string, Value>) returns (result: map<string, Value>)
      ensures result == Opened(cipher, data)
      decreases Dict(data)
    {
      result := map[];
      var rest := data.Keys;
      while rest != {}
        invariant rest <= data.Keys && result.Keys == data.Keys - rest
        invariant forall k | k in result :: result[k] == OpenedAt(cipher, k, data[k])
        decreases |rest|
      {
        var k :| k in rest;
        match data[k] {
          case Str(s) =>
            if SensitiveKey(k) && cipher.unseal(s).Some? {
              result := result[k := Str(cipher.unseal(s).value)];
            } else {
              result := result[k := data[k]];
            }
          case Dict(fields) =>
            var inner := DecryptDict(fields);
            result := result[k := Dict(inner)];
          case _ =>
            result := result[k := data[k]];
        }
        rest := rest - {k};
      }
    }
  }

  /** What encryption does to each string of a dictionary, said of its key: a marked one
      becomes a token of itself, any other stays. */
  lemma SealedByMarker(c: Cipher, x: map<string, Value>, y: map<string, Value>, key: string)
    requires Sealed(c, x, y) && key in x && x[key].Str?
    ensures key in y && y[key].Str?
    ensures if Marked(key) then TokenOf(c, x[key].s, y[key].s) else y[key] == x[key]
  {
    SensitiveIff(key);
    assert SealedAt(c, key, x[key], y[key]);
  }

  // ---------------------------------------------------------------- round trips

  /** Reading s back as it is leaves it alone. */
  predicate Inert(c: Cipher, s: string) {
    c.unseal(s) == None || c.unseal(s) == Some(s)
  }

  /** y is x partly encrypted: a secret may also still stand there in the clear. */
  ghost predicate Mixed(c: Cipher, x: map<string, Value>, y: map<string, Value>)
    decreases Dict(x), 0
  {
    x.Keys == y.Keys && forall k | k in x :: MixedAt(c, k, x[k], y[k])
  }

  ghost predicate MixedAt(c: Cipher, key: string, v: Value, w: Value)
    decreases v, 1
  {
    match v
    case Str(s) =>
      if SensitiveKey(key) then w.Str? && (TokenOf(c, s, w.s) || (w == v && Inert(c, s))) else w == v
    case Dict(fields) => w.Dict? && Mixed(c, fields, w.fields)
    case _ => w == v
  }

  /** Reading back a partly encrypted tree gives the plain tree, whichever secrets are
      still in the clear. */
  lemma {:induction false} MixedOpens(c: Cipher, x: map<string, Value>, y: map<string, Value>)
    requires Sound(c) && Mixed(c, x, y)
    ensures Opened(c, y) == x
    decreases Dict(x)
  {
    forall k | k in x ensures OpenedAt(c, k, y[k]) == x[k] {
      assert MixedAt(c, k, x[k], y[k]);
      if x[k].Dict? {
        MixedOpens(c, x[k].fields, y[k].fields);
      }
    }
  }

  lemma {:induction false} SealedIsMixed(c: Cipher, x: map<string, Value>, y: map<string, Value>)
    requires Sealed(c, x, y)
    ensures Mixed(c, x, y)
    decreases Dict(x)
  {
    forall k | k in x ensures MixedAt(c, k, x[k], y[k]) {
      assert SealedAt(c, k, x[k], y[k]);
      if x[k].Dict? {
        SealedIsMixed(c, x[k].fields, y[k].fields);
      }
    }
  }

  /** Encrypting and reading back is the identity on every tree; encrypting twice needs
      reading back twice. */
  lemma RoundTrip(c: Cipher, x: map<string, Value>, y: map<string, Value>, z: map<string, Value>)
    requires Sound(c) && Sealed(c, x, y) && Sealed(c, y, z)
    ensures Opened(c, y) == x && Opened(c, Opened(c, z)) == x
  {
    SealedIsMixed(c, x, y);
    SealedIsMixed(c, y, z);
    MixedOpens(c, x, y);
    MixedOpens(c, y, z);
  }

  /** Every secret that reading back would touch satisfies p. */
  ghost predicate EverySecret(p: string -> bool, x: map<string, Value>)
    decreases Dict(x), 0
  {
    forall k | k in x :: EverySecretAt(p, k, x[k])
  }

  ghost predicate EverySecretAt(p: string -> bool, key: string, v: Value)
    decreases v, 1
  {
    match v
    case Str(s) => SensitiveKey(key) ==> p(s)
    case Dict(fields) => EverySecret(p, fields)
    case _ => true
  }

  /** Reading back data that was never encrypted changes nothing exactly when none of its
      secrets is a token of something else. */
  lemma {:induction false} PlainUnchangedIff(c: Cipher, x: map<string, Value>)
    ensures Opened(c, x) == x <==> EverySecret(s => Inert(c, s), x)
    decreases Dict(x)
  {
    var inert := s => Inert(c, s);
    forall k | k in x ensures OpenedAt(c, k, x[k]) == x[k] <==> EverySecretAt(inert, k, x[k]) {
      if x[k].Dict? {
        PlainUnchangedIff(c, x[k].fields);
      }
    }
    if EverySecret(inert, x) {
      assert Opened(c, x) == x;
    } else {
      var k :| k in x && !EverySecretAt(inert, k, x[k]);
      assert Opened(c, x)[k] == OpenedAt(c, k, x[k]) != x[k];
    }
  }

  /** After encryption every secret is a token. */
  lemma {:induction false} NothingInTheClear(c: Cipher, x: map<string, Value>, y: map<string, Value>)
    requires Sound(c) && Sealed(c, x, y)
    ensures EverySecret(s => c.unseal(s).Some?, y)
    decreases Dict(x)
  {
    var token := (s: string) => c.unseal(s).Some?;
    forall k | k in y ensures EverySecretAt(token, k, y[k]) {
      assert SealedAt(c, k, x[k], y[k]);
      if x[k].Dict? {
        NothingInTheClear(c, x[k].fields, y[k].fields);
      }
    }
  }

  // ---------------------------------------------------------------- credentials

  datatype Credentials = Credentials(username: string, password: string)
  datatype CredentialError = NotDecryptable | NoColon

  function EncryptCredentials(c: Cipher, username: string, password: string, n: nat): string {
    c.seal(username + ":" + password, n)
  }

  function DecryptCredentials(c: Cipher, token: string): Result<Credentials, CredentialError> {
    match c.unseal(token)
    case None => Err(NotDecryptable)
    case Some(text) =>
      match AfterFirst(text, ':')
      case None => Err(NoColon)
      case Some(password) => Ok(Credentials(Before(text, ':'), password))
  }

  /** A token opens to credentials exactly when its text has a colon; joined again they are
      that text, and the username is colon-free. */
  lemma DecryptedJoins(c: Cipher, token: string)
    ensures var r := DecryptCredentials(c, token);
            && (r.Ok? <==> c.unseal(token).Some? && ':' in c.unseal(token).value)
            && (r == Err(NotDecryptable) <==> c.unseal(token).None?)
            && (r.Ok? ==> ':' !in r.value.username
                          && c.unseal(token) == Some(r.value.username + ":" + r.value.password))
  {
    if c.unseal(token).Some? {
      SplitJoins(c.unseal(token).value, ':');
    }
  }

  /** What a username and a password come back as. */
  function Reread(username: string, password: string): Credentials {
    match AfterFirst(username, ':')
    case None => Credentials(username, password)
    case Some(rest) => Credentials(Before(username, ':'), rest + ":" + password)
  }

  /** The round trip never fails. It gives back what went in exactly when the username has no
      colon; otherwise what follows its first colon moves into the password. */
  lemma CredentialsIff(c: Cipher, username: string, password: string, n: nat)
    requires Sound(c)
    ensures DecryptCredentials(c, EncryptCredentials(c, username, password, n)) == Ok(Reread(username, password))
    ensures Reread(username, password) == Credentials(username, password) <==> ':' !in username
  {
    var text := username + ":" + password;
    var back := Reread(username, password);
    SplitJoins(username, ':');
    assert text == back.username + ":" + back.password;
    SplitAt(back.username, ':', back.password);
    assert c.unseal(c.seal(text, n)) == Some(text);
  }
}
