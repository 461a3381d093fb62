/** Backends as configured. */
module Configs {
  import opened Options

  datatype Retry = Off | Every(duration: nat) | Malformed

  /** One backend as configured; `url` is `None` when it does not parse. */
  datatype Config = Config(
    name: string, url: Option<string>, models: seq<string>, ownedBy: string, healthPath: string,
    healthInterval: nat, maxConcurrent: nat, isStatic: bool, deprecated: bool, successor: string,
    noticeInterval: int, retry: Retry)

  predicate Parses(c: Config) {
    c.url.Some? && !c.retry.Malformed?
  }

  predicate DistinctNames(cfgs: seq<Config>) {
    forall i, j :: 0 <= i < j < |cfgs| ==> cfgs[i].name != cfgs[j].name
  }

  /** Everything about a backend that configuration decides, apart from its name. */
  datatype Settings = Settings(
    url: string, models: seq<string>, ownedBy: string, healthPath: string, healthInterval: nat,
    maxConcurrent: nat, isStatic: bool, deprecated: bool, successor: string, noticeInterval: int,
    retryAfter: nat)

  function SettingsOf(c: Config): Settings
    requires c.url.Some?
  {
    Settings(c.url.value, c.models, c.ownedBy, c.healthPath, c.healthInterval, c.maxConcurrent, c.isStatic,
             c.deprecated, c.successor, c.noticeInterval, if c.retry.Every? then c.retry.duration else 0)
  }

  /** A reload of these configurations gets as far as overwriting a kept backend of the i-th name:
      everything in front of it parses, and so does its own URL. */
  predicate Overwrites(cfgs: seq<Config>, i: nat) {
    i < |cfgs| && cfgs[i].url.Some? && forall k :: 0 <= k < i ==> Parses(cfgs[k])
  }
}
