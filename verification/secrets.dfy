/** `deploy_kit/gcp_secrets.py`: the `.env.secrets` parser and the secret
    names `ensure_secrets` reports. The file's text is given (after Python's
    newline translation), and `None` stands for a missing file. */
module Secrets {
  import opened Wrappers
  import Text
  import Split
  import Dict
  import Config

  /** One line of the file: blank lines, comments and lines without "=" give
      nothing; otherwise the key and value around the first "=", stripped. */
  function ParseLine(line: string): (r: Option<(string, string)>)
    ensures r.None? <==>
      var l := Text.Strip(line);
      l == [] || l[0] == '#' || '=' !in l
    ensures r.Some? ==> exists k, v :: Text.Strip(line) == k + "=" + v && '=' !in k
                                       && r.value == (Text.Strip(k), Text.Strip(v))
    ensures r.Some? ==> '=' !in r.value.0
    ensures r.Some? ==> Text.IsStripped(r.value.0) && Text.IsStripped(r.value.1)
  {
    var l := Text.Strip(line);
    if l == [] || l[0] == '#' then None
    else if '=' !in l then None
    else
      var i := Split.IndexOf(l, '=');
      KeyHasNoEquals(l[..i], Text.Strip(l[..i]));
      SplitWitness(l, i);
      Some((Text.Strip(l[..i]), Text.Strip(l[i + 1..])))
  }

  lemma SplitWitness(l: string, i: nat)
    requires i < |l| && l[i] == '=' && '=' !in l[..i]
    ensures exists k, v :: l == k + "=" + v && '=' !in k
                           && (Text.Strip(l[..i]), Text.Strip(l[i + 1..])) == (Text.Strip(k), Text.Strip(v))
  {
    var k, v := l[..i], l[i + 1..];
    assert l == k + "=" + v;
    assert l == k + "=" + v && '=' !in k
           && (Text.Strip(l[..i]), Text.Strip(l[i + 1..])) == (Text.Strip(k), Text.Strip(v));
  }

  lemma KeyHasNoEquals(raw: string, key: string)
    requires '=' !in raw
    requires exists k :: Text.InfixAt(key, raw, k)
    ensures '=' !in key
  {
  }

  /** Any line written as key=value, with any whitespace around either part
      and any "=" in the value, parses to the stripped key and the stripped
      value, unless the key starts a comment. */
  lemma ParseLineFields(key: string, value: string)
    requires '=' !in key
    requires Text.Strip(key) == [] || Text.Strip(key)[0] != '#'
    ensures ParseLine(key + "=" + value) == Some((Text.Strip(key), Text.Strip(value)))
  {
    var lk, rv := Text.LStrip(key), Text.RStrip(value);
    StrippedLine(key, value);
    ParseStrippedLine(key + "=" + value, lk, rv);
    Text.StripOfLStrip(key);
    Text.StripOfRStrip(value);
  }

  /** The stripped line keeps the key's end and the value's start, and starts
      a comment only if the key does. */
  lemma StrippedLine(key: string, value: string)
    requires '=' !in key
    requires Text.Strip(key) == [] || Text.Strip(key)[0] != '#'
    ensures var l := Text.LStrip(key) + "=" + Text.RStrip(value);
      Text.Strip(key + "=" + value) == l && l[0] != '#' && '=' !in Text.LStrip(key)
  {
    var lk := Text.LStrip(key);
    Text.StripAround(key, '=', value);
    if lk != [] {
      Text.StripFirst(key);
    }
    assert lk == key[|key| - |lk|..];
  }

  lemma FieldsAt(k: string, v: string)
    requires '=' !in k
    ensures var l := k + "=" + v;
      '=' in l && Split.IndexOf(l, '=') == |k| && l[..|k|] == k && l[|k| + 1..] == v
  {
    var l := k + "=" + v;
    assert l[..|k|] == k && l[|k|] == '=' && l[|k| + 1..] == v;
    FirstIndex(l, '=', |k|);
  }

  lemma ParseStrippedLine(line: string, k: string, v: string)
    requires Text.Strip(line) == k + "=" + v && '=' !in k && (k + "=" + v)[0] != '#'
    ensures ParseLine(line) == Some((Text.Strip(k), Text.Strip(v)))
  {
    FieldsAt(k, v);
  }

  lemma FirstIndex(s: string, c: char, j: int)
    requires 0 <= j < |s| && s[j] == c && c !in s[..j]
    ensures Split.IndexOf(s, c) == j
  {
  }

  /** `secrets[key] = value` for a line, when it parses. */
  function AddLine(secrets: Dict.Entries<string>, line: string): (r: Dict.Entries<string>)
    requires Dict.DistinctKeys(secrets)
    ensures Dict.DistinctKeys(r)
    ensures ParseLine(line).None? ==> r == secrets
    ensures ParseLine(line).Some? ==> ParseLine(line).value.0 in Dict.Keys(r)
    ensures forall k :: k in Dict.Keys(secrets) ==> k in Dict.Keys(r)
    ensures |r| <= |secrets| + 1
  {
    match ParseLine(line)
    case None => secrets
    case Some((k, v)) => Dict.Put(secrets, k, v)
  }

  /** The dict after reading `lines` in order. */
  function ParseLines(lines: seq<string>): (r: Dict.Entries<string>)
    ensures Dict.DistinctKeys(r)
    ensures |r| <= |lines|
  {
    if lines == [] then [] else AddLine(ParseLines(lines[..|lines| - 1]), lines[|lines| - 1])
  }

  /** No parsed key is lost: every line that parses has its key in the dict. */
  lemma {:induction false} ParseLinesKeys(lines: seq<string>, i: int)
    requires 0 <= i < |lines| && ParseLine(lines[i]).Some?
    ensures ParseLine(lines[i]).value.0 in Dict.Keys(ParseLines(lines))
    decreases |lines|
  {
    var init := lines[..|lines| - 1];
    if i < |lines| - 1 {
      assert init[i] == lines[i];
      ParseLinesKeys(init, i);
    }
  }

  /** `load_local_secrets_file`: a missing file gives an empty dict. */
  function LoadSecrets(file: Option<string>): (r: Dict.Entries<string>)
    ensures Dict.DistinctKeys(r)
    ensures file.None? ==> r == []
  {
    match file
    case None => []
    case Some(text) => ParseLines(Split.SplitOn(text, '\n'))
  }

  /** Reference definition: the value of the last line that sets `key`. */
  function LastValue(lines: seq<string>, key: string): Option<string> {
    if lines == [] then None
    else
      var p := ParseLine(lines[|lines| - 1]);
      if p.Some? && p.value.0 == key then Some(p.value.1)
      else LastValue(lines[..|lines| - 1], key)
  }

  /** A later line for the same key overwrites an earlier one: each key maps
      to the value of the last line that sets it. */
  lemma {:induction false} LastLineWins(lines: seq<string>, key: string)
    ensures Dict.Get(ParseLines(lines), key) == LastValue(lines, key)
    decreases |lines|
  {
    if lines != [] {
      var init := lines[..|lines| - 1];
      LastLineWins(init, key);
      var p := ParseLine(lines[|lines| - 1]);
      if p.Some? {
        Dict.PutGet(ParseLines(init), p.value.0, p.value.1, key);
      }
    }
  }

  /** A secret's name: the prefix and key when the prefix is non-empty. */
  function SecretName(prefix: string, key: string): string {
    if prefix != "" then prefix + key else key
  }

  function Names(prefix: string, secrets: Dict.Entries<string>): (r: seq<string>)
    ensures |r| == |secrets|
    ensures forall i :: 0 <= i < |r| ==> r[i] == SecretName(prefix, secrets[i].0)
  {
    if secrets == [] then [] else [SecretName(prefix, secrets[0].0)] + Names(prefix, secrets[1..])
  }

  /** `ensure_secrets(cfg)`: nothing unless Secret Manager is enabled and
      secrets are configured, nothing for an empty or missing file, else one
      name per secret in file order. */
  function EnsureSecrets(cfg: Config.DeployConfig, file: Option<string>): (r: seq<string>)
    ensures !(cfg.enableSecretManager && cfg.configureSecrets) ==> r == []
    ensures file.None? ==> r == []
    ensures cfg.enableSecretManager && cfg.configureSecrets ==>
      |r| == |LoadSecrets(file)|
      && forall i :: 0 <= i < |r| ==> r[i] == SecretName(cfg.secretPrefix, LoadSecrets(file)[i].0)
  {
    if !(cfg.enableSecretManager && cfg.configureSecrets) then []
    else
      var secrets := LoadSecrets(file);
      if secrets == [] then [] else Names(cfg.secretPrefix, secrets)
  }

  lemma SecretNameInjective(prefix: string, a: string, b: string)
    requires SecretName(prefix, a) == SecretName(prefix, b)
    ensures a == b
  {
    if prefix != "" {
      assert (prefix + a)[|prefix|..] == a;
      assert (prefix + b)[|prefix|..] == b;
    }
  }

  /** The reported names are distinct, since the keys are. */
  lemma EnsureSecretsDistinct(cfg: Config.DeployConfig, file: Option<string>)
    ensures Dict.Distinct(EnsureSecrets(cfg, file))
  {
    var r := EnsureSecrets(cfg, file);
    if r != [] {
      var secrets := LoadSecrets(file);
      forall i, j | 0 <= i < j < |r| ensures r[i] != r[j] {
        if r[i] == r[j] {
          SecretNameInjective(cfg.secretPrefix, secrets[i].0, secrets[j].0);
        }
      }
    }
  }
}
