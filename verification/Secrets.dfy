/** Versioned envelopes for the secrets of stored connections. */
module Secrets {
  import opened Wrappers

  /** The key derived for a version. */
  datatype Fernet = Fernet(version: string)

  /** An abstract cipher. */
  datatype Cipher = Cipher(enc: (Fernet, string) -> string, dec: (Fernet, string) -> Option<string>)

  /** Tokens decrypt to what was encrypted, and are longer than that and at least ten characters long. */
  ghost predicate Sound(c: Cipher) {
    && (forall f, p :: c.dec(f, c.enc(f, p)) == Some(p) && |c.enc(f, p)| >= 10)
    && (forall f, t :: c.dec(f, t).Some? ==> |c.dec(f, t).value| < |t|)
  }

  // ---- Envelopes ----

  function UpToColon(s: string): string {
    if s == "" || s[0] == ':' then "" else [s[0]] + UpToColon(s[1..])
  }

  /** What `split(":", 1)` leaves after the first colon. */
  function AfterColon(s: string): string
    requires ':' in s
  {
    if s[0] == ':' then s[1..] else AfterColon(s[1..])
  }

  /** `is_encrypted`. */
  predicate IsEncrypted(s: string) {
    ':' in s && UpToColon(s) != "" && UpToColon(s)[0] == 'v' && |s| > |UpToColon(s)| + 10
  }

  function Envelope(version: string, token: string): string {
    version + ":" + token
  }

  /** `encrypt` under a version. */
  function Encrypt(c: Cipher, version: string, p: string): string {
    Envelope(version, c.enc(Fernet(version), p))
  }

  /** `decrypt`; `None` stands for the error. */
  function Decrypt(c: Cipher, s: string): Option<string> {
    if ':' in s then c.dec(Fernet(UpToColon(s)), AfterColon(s)) else None
  }

  // ---- Configurations ----

  type Config = map<string, string>

  /** The fields `CREDENTIAL_TYPES` declares secret. */
  function CredentialFields(service: string): Option<seq<string>> {
    if service == "database" then Some(["url"])
    else if service == "smtp" then Some(["password"])
    else if service == "calcom" then Some(["api_key"])
    else None
  }

  /** With those of `WEBHOOK_CONNECTION_TYPES`. */
  function SecretFields(service: string): Option<seq<string>> {
    if CredentialFields(service).Some? then CredentialFields(service)
    else if service == "resend" then Some(["signing_secret", "api_key"])
    else None
  }

  /** A secret as `encrypt_config` stores it. */
  function Seal(c: Cipher, version: string, p: string): string {
    if p != "" && !IsEncrypted(p) then Encrypt(c, version, p) else p
  }

  /** A stored secret as `decrypt_config` reads it. */
  function Open(c: Cipher, s: string): Option<string> {
    if s != "" && IsEncrypted(s) then Decrypt(c, s) else Some(s)
  }

  function EncryptConfig(c: Cipher, version: string, fields: seq<string>, config: Config): Config {
    map k | k in config :: if k in fields then Seal(c, version, config[k]) else config[k]
  }

  predicate Opens(c: Cipher, fields: seq<string>, config: Config) {
    forall k | k in config :: k in fields ==> Open(c, config[k]).Some?
  }

  function DecryptConfig(c: Cipher, fields: seq<string>, config: Config): Option<Config> {
    if Opens(c, fields, config)
    then Some(map k | k in config :: if k in fields then Open(c, config[k]).value else config[k])
    else None
  }

  /** `plain` is `config` with the secrets in `fields` opened. */
  predicate Reads(c: Cipher, fields: seq<string>, config: Config, plain: Config) {
    && plain.Keys == config.Keys
    && forall k | k in config :: if k in fields then Open(c, config[k]) == Some(plain[k]) else plain[k] == config[k]
  }

  lemma DecryptMeans(c: Cipher, fields: seq<string>, config: Config, plain: Config)
    ensures DecryptConfig(c, fields, config) == Some(plain) <==> Reads(c, fields, config, plain)
  {
    if Reads(c, fields, config, plain) {
      assert Opens(c, fields, config);
      assert DecryptConfig(c, fields, config).value == plain;
    }
  }

  // ---- As the source does it ----

  class KeyState {
    /** Set by rotation; without it the configured version is used. */
    var activeVersion: Option<string>
    var keyCache: map<string, Fernet>

    ghost predicate Valid()
      reads this
    {
      forall v :: v in keyCache ==> keyCache[v] == Fernet(v)
    }

    constructor ()
      ensures Valid() && activeVersion == None
    {
      activeVersion, keyCache := None, map[];
    }

    method Clear()
      modifies this
      ensures Valid() && activeVersion == None
    {
      keyCache := map[];
      activeVersion := None;
    }

    /** `active_version`: the override, or the configured version unless that is empty. */
    method ActiveVersion(configured: string) returns (version: Option<string>)
      ensures version == Active(activeVersion, configured)
    {
      if activeVersion.Some? {
        return activeVersion;
      }
      if configured == "" {
        return None;
      }
      return Some(configured);
    }

    method DeriveFernet(version: string) returns (f: Fernet)
      requires Valid()
      modifies this`keyCache
      ensures Valid() && f == Fernet(version)
    {
      if version in keyCache {
        return keyCache[version];
      }
      f := Fernet(version);
      keyCache := keyCache[version := f];
    }

    method EncryptSecret(c: Cipher, configured: string, p: string) returns (s: Option<string>)
      requires Valid()
      modifies this`keyCache
      ensures Valid()
      ensures var v := Active(activeVersion, configured);
        s == if v.Some? then Some(Encrypt(c, v.value, p)) else None
    {
      var version := ActiveVersion(configured);
      if version.None? {
        return None;
      }
      var f := DeriveFernet(version.value);
      return Some(Envelope(version.value, c.enc(f, p)));
    }

    method DecryptSecret(c: Cipher, s: string) returns (p: Option<string>)
      requires Valid()
      modifies this`keyCache
      ensures Valid() && p == Decrypt(c, s)
    {
      if ':' !in s {
        return None;
      }
      var f := DeriveFernet(UpToColon(s));
      return c.dec(f, AfterColon(s));
    }

    /** `encrypt_config` once the version is known to be set. */
    method EncryptFields(c: Cipher, configured: string, fields: seq<string>, config: Config) returns (out: Config)
      requires Valid() && Active(activeVersion, configured).Some?
      requires forall i, j :: 0 <= i < j < |fields| ==> fields[i] != fields[j]
      modifies this`keyCache
      ensures Valid() && out == EncryptConfig(c, Active(activeVersion, configured).value, fields, config)
    {
      out := config;
      ghost var version := Active(activeVersion, configured).value;
      for i := 0 to |fields|
        invariant Valid() && out == EncryptConfig(c, version, fields[..i], config)
      {
        var k := fields[i];
        assert fields[..i + 1] == fields[..i] + [k] && k !in fields[..i];
        if k in out && out[k] != "" && !IsEncrypted(out[k]) {
          var s := EncryptSecret(c, configured, out[k]);
          out := out[k := s.value];
        }
      }
      assert fields[..|fields|] == fields;
    }

    /** `decrypt_config`. */
    method DecryptFields(c: Cipher, fields: seq<string>, config: Config) returns (out: Option<Config>)
      requires Valid()
      requires forall i, j :: 0 <= i < j < |fields| ==> fields[i] != fields[j]
      modifies this`keyCache
      ensures Valid() && out == DecryptConfig(c, fields, config)
    {
      var plain := config;
      for i := 0 to |fields|
        invariant Valid() && Reads(c, fields[..i], config, plain)
      {
        var k := fields[i];
        assert fields[..i + 1] == fields[..i] + [k] && k !in fields[..i];
        if k in plain && plain[k] != "" && IsEncrypted(plain[k]) {
          var p := DecryptSecret(c, plain[k]);
          if p.None? {
            assert k in fields && k in config && config[k] == plain[k];
            return None;
          }
          plain := plain[k := p.value];
        }
      }
      assert fields[..|fields|] == fields;
      DecryptMeans(c, fields, config, plain);
      return Some(plain);
    }
  }

  function Active(override: Option<string>, configured: string): Option<string> {
    if override.Some? then override else if configured == "" then None else Some(configured)
  }

  // ---- Facts about envelopes ----

  predicate GoodVersion(v: string) {
    v != "" && v[0] == 'v' && ':' !in v
  }

  lemma {:induction false} EnvelopeSplits(version: string, token: string)
    requires ':' !in version
    ensures var s := Envelope(version, token);
      ':' in s && UpToColon(s) == version && AfterColon(s) == token
  {
    var s := Envelope(version, token);
    assert s[|version|] == ':';
    if version != "" {
      EnvelopeSplits(version[1..], token);
      assert s[1..] == Envelope(version[1..], token);
      assert [version[0]] + version[1..] == version;
    } else {
      assert s == [':'] + token;
    }
  }

  lemma EncryptedLooksIt(c: Cipher, version: string, p: string)
    requires Sound(c) && GoodVersion(version)
    ensures var s := Encrypt(c, version, p);
      s != "" && IsEncrypted(s) && UpToColon(s) == version && Decrypt(c, s) == Some(p)
  {
    EnvelopeSplits(version, c.enc(Fernet(version), p));
  }

  /** What looks like an envelope: a first colon behind at least a "v", with more than ten characters from
      it to the end. */
  lemma LooksEncryptedIff(s: string)
    ensures IsEncrypted(s) <==>
      exists i :: 1 <= i && i + 10 < |s| && s[0] == 'v' && s[i] == ':' && forall j :: 0 <= j < i ==> s[j] != ':'
  {
    FirstColon(s);
    var at := |UpToColon(s)|;
    if i :| 1 <= i && i + 10 < |s| && s[0] == 'v' && s[i] == ':' && forall j :: 0 <= j < i ==> s[j] != ':' {
      assert i == at;
    }
    if ':' in s && at > 0 {
      assert UpToColon(s)[0] == s[0];
    }
  }

  lemma {:induction false} FirstColon(s: string)
    ensures var at := |UpToColon(s)|;
      && at <= |s| && UpToColon(s) == s[..at] && (forall j :: 0 <= j < at ==> s[j] != ':')
      && (':' in s ==> at < |s| && s[at] == ':' && AfterColon(s) == s[at + 1..])
      && (':' !in s ==> at == |s|)
  {
    if s != "" && s[0] != ':' {
      FirstColon(s[1..]);
      var at := |UpToColon(s[1..])|;
      assert s[..at + 1] == [s[0]] + s[1..][..at];
      assert forall j :: 1 <= j < at + 1 ==> s[j] == s[1..][j - 1];
      if ':' in s {
        assert s[1..][at + 1..] == s[at + 2..];
      }
    }
  }

  /** `s` is an envelope of `p` under `version`. */
  predicate Envelops(c: Cipher, version: string, s: string, p: string) {
    IsEncrypted(s) && UpToColon(s) == version && c.dec(Fernet(version), AfterColon(s)) == Some(p)
  }

  /** A secret is stored encrypted under the version unless it is empty or looks like an envelope already. */
  lemma SecretIsSealed(c: Cipher, version: string, p: string)
    requires Sound(c) && GoodVersion(version)
    ensures if p == "" || IsEncrypted(p) then Seal(c, version, p) == p else Envelops(c, version, Seal(c, version, p), p)
  {
    EnvelopeSplits(version, c.enc(Fernet(version), p));
  }

  /** A stored configuration has each plain, non-empty secret in an envelope, and everything else as given. */
  lemma ConfigIsSealed(c: Cipher, version: string, fields: seq<string>, config: Config, k: string)
    requires Sound(c) && GoodVersion(version)
    ensures EncryptConfig(c, version, fields, config).Keys == config.Keys
    ensures k in config ==>
        var s := EncryptConfig(c, version, fields, config)[k];
        if k !in fields || config[k] == "" || IsEncrypted(config[k]) then s == config[k]
        else Envelops(c, version, s, config[k])
  {
    if k in config {
      SecretIsSealed(c, version, config[k]);
    }
  }

  /** So are a database's URL, an SMTP password, a Cal.com key and both secrets of a Resend webhook. */
  lemma DeclaredSecretsAreSealed(c: Cipher, version: string, service: string, field: string, config: Config)
    requires Sound(c) && GoodVersion(version)
    requires (service, field) in {("database", "url"), ("smtp", "password"), ("calcom", "api_key"),
                                  ("resend", "signing_secret"), ("resend", "api_key")}
    requires field in config && config[field] != "" && !IsEncrypted(config[field])
    ensures SecretFields(service).Some?
    ensures Envelops(c, version, EncryptConfig(c, version, SecretFields(service).value, config)[field], config[field])
  {
    ConfigIsSealed(c, version, SecretFields(service).value, config, field);
  }

  lemma {:induction false} AfterColonIsShorter(s: string)
    requires ':' in s
    ensures |AfterColon(s)| < |s|
  {
    if s[0] != ':' {
      AfterColonIsShorter(s[1..]);
    }
  }

  /** A secret saved and read back is the same if and only if it does not look like an envelope. */
  lemma SecretRoundTripIff(c: Cipher, version: string, p: string)
    requires Sound(c) && GoodVersion(version)
    ensures Open(c, Seal(c, version, p)) == Some(p) <==> !IsEncrypted(p)
  {
    if IsEncrypted(p) {
      AfterColonIsShorter(p);
    } else {
      EncryptedLooksIt(c, version, p);
    }
  }

  /** Any URL whose scheme begins with "v" looks like an envelope, so it is stored as it is and cannot be
      read back. */
  lemma UrlLooksEncrypted(c: Cipher, version: string, scheme: string, rest: string)
    requires Sound(c) && GoodVersion(version) && GoodVersion(scheme) && |rest| >= 10
    ensures var url := scheme + ":" + rest;
      IsEncrypted(url) && Seal(c, version, url) == url && Open(c, url) != Some(url)
  {
    EnvelopeSplits(scheme, rest);
    SecretRoundTripIff(c, version, Envelope(scheme, rest));
  }

  lemma VerticaDsnLooksEncrypted()
    ensures IsEncrypted("vertica://u:p@host/db")
  {
    var scheme, rest := "vertica", "//u:p@host/db";
    assert "vertica://u:p@host/db" == Envelope(scheme, rest);
    EnvelopeSplits(scheme, rest);
  }

  predicate PlainSecrets(fields: seq<string>, config: Config) {
    forall k | k in config :: k in fields ==> !IsEncrypted(config[k])
  }

  /** So a configuration saved and read back is the same if and only if none of its secrets does. */
  lemma ConfigRoundTripIff(c: Cipher, version: string, fields: seq<string>, config: Config)
    requires Sound(c) && GoodVersion(version)
    ensures DecryptConfig(c, fields, EncryptConfig(c, version, fields, config)) == Some(config) <==>
        PlainSecrets(fields, config)
  {
    var sealed := EncryptConfig(c, version, fields, config);
    forall k | k in config && k in fields
      ensures Open(c, sealed[k]) == Some(config[k]) <==> !IsEncrypted(config[k])
    {
      SecretRoundTripIff(c, version, config[k]);
    }
    DecryptMeans(c, fields, sealed, config);
  }

  /** Encrypting again changes nothing, even under another version. */
  lemma EncryptIsIdempotent(c: Cipher, version: string, again: string, fields: seq<string>, config: Config)
    requires Sound(c) && GoodVersion(version)
    ensures var sealed := EncryptConfig(c, version, fields, config);
      EncryptConfig(c, again, fields, sealed) == sealed
  {
    var sealed := EncryptConfig(c, version, fields, config);
    forall k | k in config && k in fields ensures Seal(c, again, sealed[k]) == sealed[k] {
      EncryptedLooksIt(c, version, config[k]);
    }
  }
}
