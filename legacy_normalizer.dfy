// The older normalizer (src/index/normalizer.ts), which talks to Redis directly: one
// pipeline of GETs per lookup, whose `exec` may return nothing at all (nil) or a per-command
// [error, value] pair.  The Redis side is a snapshot with injectable faults.

module LegacyNormalizer {
  import opened Wrappers
  import Normalizer

  /** One command's result: `[err, val]`. */
  datatype Reply = Reply(err: bool, val: Option<string>)

  /** What `pipeline.exec()` answers: nil when `down`, otherwise one reply per key, failing keys erroring. */
  datatype Redis = Redis(values: map<string, string>, failing: set<string>, down: bool)
  {
    function Exec(keys: seq<string>): (r: Option<seq<Reply>>)
      ensures r.Some? ==> |r.value| == |keys|
    {
      if down then None
      else Some(seq(|keys|, i requires 0 <= i < |keys| =>
        if keys[i] in failing then Reply(true, None)
        else Reply(false, if keys[i] in values then Some(values[keys[i]]) else None)))
    }
  }

  function LemmaKeys(lower: string -> string, terms: seq<string>): seq<string>
  {
    seq(|terms|, i requires 0 <= i < |terms| => lower(terms[i]))
  }

  function StopKeys(lemmas: seq<string>): seq<string>
  {
    seq(|lemmas|, i requires 0 <= i < |lemmas| => "sw:" + lemmas[i])
  }

  /** fetchLemmas on a given exec result. */
  function LemmasFrom(lower: string -> string, terms: seq<string>, results: Option<seq<Reply>>): (r: seq<string>)
    requires results.Some? ==> |results.value| == |terms|
    ensures |r| == |terms|
  {
    if results.None? then seq(|terms|, i requires 0 <= i < |terms| => lower(terms[i]))
    else
      var rs := results.value;
      seq(|rs|, i requires 0 <= i < |rs| =>
        if rs[i].err then lower(terms[i])
        else if rs[i].val.Some? && rs[i].val.value != "" then rs[i].val.value
        else lower(terms[i]))
  }

  /** checkStopWords on a given exec result. */
  function FlagsFrom(lemmas: seq<string>, results: Option<seq<Reply>>): (r: seq<bool>)
    requires results.Some? ==> |results.value| == |lemmas|
    ensures |r| == |lemmas|
  {
    if results.None? then seq(|lemmas|, _ => false)
    else
      var rs := results.value;
      seq(|rs|, i requires 0 <= i < |rs| => !rs[i].err && rs[i].val.Some?)
  }

  class LegacyNormalizer {
    const redis: Redis
    const lower: string -> string
    /** The key lists of the pipelines executed so far. */
    ghost var pipelines: seq<seq<string>>

    constructor (redis: Redis, lower: string -> string)
      ensures this.redis == redis && this.lower == lower && pipelines == []
    {
      this.redis := redis;
      this.lower := lower;
      pipelines := [];
    }

    method NormalizeTerms(terms: seq<string>) returns (normalized: seq<string>)
      modifies this
      ensures var lemmas := LemmasFrom(lower, terms, redis.Exec(LemmaKeys(lower, terms)));
        normalized == Normalizer.KeepNonStop(lemmas, FlagsFrom(lemmas, redis.Exec(StopKeys(lemmas))))
      ensures var lemmas := LemmasFrom(lower, terms, redis.Exec(LemmaKeys(lower, terms)));
        pipelines == old(pipelines) + [LemmaKeys(lower, terms), StopKeys(lemmas)]
    {
      var lemmas := FetchLemmas(terms);
      var isStopWordFlags := CheckStopWords(lemmas);
      normalized := [];
      for i := 0 to |terms|
        invariant normalized == Normalizer.KeepNonStop(lemmas[..i], isStopWordFlags[..i])
      {
        assert lemmas[..i + 1][..i] == lemmas[..i] && isStopWordFlags[..i + 1][..i] == isStopWordFlags[..i];
        if !isStopWordFlags[i] {
          normalized := normalized + [lemmas[i]];
        }
      }
      assert lemmas[..|terms|] == lemmas && isStopWordFlags[..|terms|] == isStopWordFlags;
    }

    method FetchLemmas(terms: seq<string>) returns (lemmas: seq<string>)
      modifies this
      ensures lemmas == LemmasFrom(lower, terms, redis.Exec(LemmaKeys(lower, terms)))
      ensures pipelines == old(pipelines) + [LemmaKeys(lower, terms)]
    {
      var keys := [];
      for i := 0 to |terms|
        invariant keys == LemmaKeys(lower, terms[..i])
      {
        keys := keys + [lower(terms[i])];
      }
      assert terms[..|terms|] == terms;
      pipelines := pipelines + [keys];
      var results := redis.Exec(keys);
      if results.None? {
        return seq(|terms|, i requires 0 <= i < |terms| => lower(terms[i]));
      }
      var rs := results.value;
      lemmas := seq(|rs|, i requires 0 <= i < |rs| =>
        if rs[i].err then lower(terms[i])
        else if rs[i].val.Some? && rs[i].val.value != "" then rs[i].val.value
        else lower(terms[i]));
    }

    method CheckStopWords(lemmas: seq<string>) returns (flags: seq<bool>)
      modifies this
      ensures flags == FlagsFrom(lemmas, redis.Exec(StopKeys(lemmas)))
      ensures pipelines == old(pipelines) + [StopKeys(lemmas)]
    {
      var keys := [];
      for i := 0 to |lemmas|
        invariant keys == StopKeys(lemmas[..i])
      {
        keys := keys + ["sw:" + lemmas[i]];
      }
      assert lemmas[..|lemmas|] == lemmas;
      pipelines := pipelines + [keys];
      var results := redis.Exec(keys);
      if results.None? {
        return seq(|lemmas|, _ => false);
      }
      var rs := results.value;
      flags := seq(|rs|, i requires 0 <= i < |rs| => !rs[i].err && rs[i].val.Some?);
    }
  }

  /**
   * With Redis unreachable every term is its own lowercased self and nothing is a stop
   * word, so normalization lowercases and keeps every term.
   */
  lemma {:induction false} UnreachableRedisLowercases(lower: string -> string, terms: seq<string>, r: Redis)
    requires r.down
    ensures LemmasFrom(lower, terms, r.Exec(LemmaKeys(lower, terms))) == LemmaKeys(lower, terms)
    ensures var lemmas := LemmaKeys(lower, terms);
      Normalizer.KeepNonStop(lemmas, FlagsFrom(lemmas, r.Exec(StopKeys(lemmas)))) == lemmas
  {
    KeepAllWhenNoStops(LemmaKeys(lower, terms));
  }

  lemma {:induction false} KeepAllWhenNoStops(lemmas: seq<string>)
    ensures Normalizer.KeepNonStop(lemmas, seq(|lemmas|, _ => false)) == lemmas
  {
    if lemmas != [] {
      var n := |lemmas| - 1;
      assert seq(|lemmas|, _ => false)[..n] == seq(n, _ => false);
      KeepAllWhenNoStops(lemmas[..n]);
    }
  }

  /**
   * With Redis reachable, a term's lemma is the stored value of its lowercased key unless
   * that command failed or the value is missing or empty; a lemma is a stop word iff its
   * `sw:` key holds a value and the command did not fail.
   */
  lemma ReachableRedisLookups(lower: string -> string, terms: seq<string>, lemmas: seq<string>, r: Redis)
    requires !r.down
    ensures forall i :: 0 <= i < |terms| ==>
      var key := lower(terms[i]);
      LemmasFrom(lower, terms, r.Exec(LemmaKeys(lower, terms)))[i]
        == if key !in r.failing && key in r.values && r.values[key] != "" then r.values[key] else key
    ensures forall i :: 0 <= i < |lemmas| ==>
      FlagsFrom(lemmas, r.Exec(StopKeys(lemmas)))[i]
        == ("sw:" + lemmas[i] !in r.failing && "sw:" + lemmas[i] in r.values)
  {
  }
}
