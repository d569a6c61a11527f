/**
 The cache of regex match tables, keyed by the address of a dictionary, a pattern and its flags.

 As long as every address keeps naming one dictionary between two clears, a lookup through the
 cache is a direct match, and the matcher is called once for every dictionary entry of every
 distinct key.
 */
module RegexCache {
  import opened Wrappers
  import opened RowSets
  import opened Predicates

  datatype Key = Key(address: nat, pattern: string, flags: string)

  /** The table: the matcher asked once for every entry. */
  function Table(dict: seq<string>, pattern: string, flags: string, regex: RegexEngine): seq<bool> {
    seq(|dict|, i requires 0 <= i < |dict| => regex.partialMatch(dict[i], pattern, flags != "i"))
  }

  predicate PatternOk(key: Key, regex: RegexEngine) { regex.wellFormed(key.pattern, key.flags != "i") }

  /** The sizes of the dictionaries of `keys`, added up. */
  function SizeSum(keys: seq<Key>, dicts: map<nat, seq<string>>): nat {
    if keys == [] then 0
    else
      var last := keys[|keys|-1];
      SizeSum(keys[..|keys|-1], dicts) + if last.address in dicts then |dicts[last.address]| else 0
  }

  /** The order in which keys were added does not matter to the sum. */
  lemma {:induction false} SizeSumSame(a: seq<Key>, b: seq<Key>, dicts: map<nat, seq<string>>)
    requires multiset(a) == multiset(b)
    ensures SizeSum(a, dicts) == SizeSum(b, dicts)
    decreases |a|
  {
    hide SizeSum;
    assert |a| == |multiset(a)| == |b|;
    if a != [] {
      var last := a[|a|-1];
      assert last in multiset(b);
      var i: nat :| i < |b| && b[i] == last;
      WithoutOne(b, i, dicts);
      WithoutOne(a, |a| - 1, dicts);
      SizeSumSame(a[..|a|-1] + a[|a|-1+1..], b[..i] + b[i+1..], dicts);
    }
  }

  lemma WithoutOne(b: seq<Key>, i: nat, dicts: map<nat, seq<string>>)
    requires i < |b|
    ensures multiset(b[..i] + b[i+1..]) == multiset(b) - multiset{b[i]}
    ensures SizeSum(b, dicts) == SizeSum(b[..i] + b[i+1..], dicts) + SizeSum([b[i]], dicts)
  {
    assert b == (b[..i] + [b[i]]) + b[i+1..];
    SizeSumSplit(b[..i] + [b[i]], b[i+1..], dicts);
    SizeSumSplit(b[..i], [b[i]], dicts);
    SizeSumSplit(b[..i], b[i+1..], dicts);
  }

  lemma {:induction false} SizeSumSplit(a: seq<Key>, b: seq<Key>, dicts: map<nat, seq<string>>)
    ensures SizeSum(a + b, dicts) == SizeSum(a, dicts) + SizeSum(b, dicts)
  {
    if b == [] {
      assert a + b == a;
    } else {
      assert (a + b)[..|a + b|-1] == a + b[..|b|-1];
      SizeSumSplit(a, b[..|b|-1], dicts);
    }
  }

  /** The cached tables are those of the keys used, built from what their addresses name. */
  ghost predicate CacheOk(cache: map<Key, seq<bool>>, used: seq<Key>, dicts: map<nat, seq<string>>, regex: RegexEngine) {
    && NoDup(used)
    && (forall k :: k in cache <==> k in used)
    && (forall k :: k in cache ==>
          k.address in dicts && PatternOk(k, regex) && cache[k] == Table(dicts[k.address], k.pattern, k.flags, regex))
  }

  lemma CacheGrows(cache: map<Key, seq<bool>>, used: seq<Key>, dicts: map<nat, seq<string>>, regex: RegexEngine, key: Key)
    requires CacheOk(cache, used, dicts, regex) && key !in cache && key.address in dicts && PatternOk(key, regex)
    ensures CacheOk(cache[key := Table(dicts[key.address], key.pattern, key.flags, regex)], used + [key], dicts, regex)
    ensures SizeSum(used + [key], dicts) == SizeSum(used, dicts) + |dicts[key.address]|
  {
    assert (used + [key])[..|used + [key]|-1] == used;
  }

  class RegexCache {
    const regex: RegexEngine
    var cache: map<Key, seq<bool>>
    var matchCalls: nat
    // What each address names since the last clear, the calls before it, and the keys used since, in order of first use.
    ghost var dicts: map<nat, seq<string>>
    ghost var callsBefore: nat
    ghost var used: seq<Key>

    ghost predicate Valid()
      reads this
    {
      CacheOk(cache, used, dicts, regex) && matchCalls == callsBefore + SizeSum(used, dicts)
    }

    constructor (engine: RegexEngine)
      ensures Valid() && fresh(this) && regex == engine && used == [] && matchCalls == 0
    {
      regex := engine;
      cache, matchCalls, dicts, callsBefore, used := map[], 0, map[], 0, [];
    }

    /** `clearRegexCache`: from here on an address may name another dictionary. */
    method Clear(ghost naming: map<nat, seq<string>>)
      requires Valid()
      modifies this
      ensures Valid() && used == [] && dicts == naming && matchCalls == callsBefore == old(matchCalls)
    {
      cache := map[];
      dicts, callsBefore, used := naming, matchCalls, [];
    }

    /** `getOrBuildRegexMatchTable`. A pattern that is not well-formed leaves no trace. */
    method GetOrBuild(address: nat, dict: seq<string>, pattern: string, flags: string) returns (r: Result<seq<bool>>)
      requires Valid() && address in dicts && dicts[address] == dict
      modifies this
      ensures Valid() && dicts == old(dicts) && callsBefore == old(callsBefore)
      ensures r == if PatternOk(Key(address, pattern, flags), regex) then Ok(Table(dict, pattern, flags, regex)) else Err("Invalid regex pattern")
      ensures used == if r.Err? || Key(address, pattern, flags) in old(used) then old(used) else old(used) + [Key(address, pattern, flags)]
    {
      var key := Key(address, pattern, flags);
      if key in cache { return Ok(cache[key]); }
      if !regex.wellFormed(pattern, flags != "i") { return Err("Invalid regex pattern"); }
      var matches := BuildTable(dict, pattern, flags);
      CacheGrows(cache, used, dicts, regex, key);
      cache := cache[key := matches];
      used := used + [key];
      return Ok(matches);
    }

    method BuildTable(dict: seq<string>, pattern: string, flags: string) returns (matches: seq<bool>)
      modifies this`matchCalls
      ensures matches == Table(dict, pattern, flags, regex) && matchCalls == old(matchCalls) + |dict|
    {
      matches := [];
      var i := 0;
      while i < |dict|
        invariant 0 <= i <= |dict| && matches == Table(dict[..i], pattern, flags, regex)
        invariant matchCalls == old(matchCalls) + i
      {
        matches := matches + [regex.partialMatch(dict[i], pattern, flags != "i")];
        matchCalls := matchCalls + 1;
        i := i + 1;
      }
      assert dict[..i] == dict;
    }

    /** The engine's evaluation of a `regex` node, through the table. */
    method EvalRegexCached(key: nat, pattern: Pattern, flags: string, b: Batch, row: nat, ctx: Ctx, address: nat) returns (r: Result<Truth>)
      requires Valid() && BatchOk(b) && row < |b.ids| && ctx.regex == regex
      requires key in b.strings ==> address in dicts && dicts[address] == b.strings[key].dict
      modifies this
      ensures Valid() && dicts == old(dicts) && callsBefore == old(callsBefore)
      ensures r == EvalRegex(key, pattern, flags, b, row, ctx)
    {
      if key !in b.strings || !b.strings[key].valid[row] { return Ok(Some(false)); }
      var col := b.strings[key];
      var text := PatternText(pattern, ctx);
      if text.Err? { return Err(text.error); }
      var table := GetOrBuild(address, col.dict, text.value, flags);
      if table.Err? { return Err(table.error); }
      return Ok(Some(table.value[col.codes[row]]));
    }

    /**
     `eval_pred_impl` with the cache behind its `regex` nodes. `addresses` says where the dictionary
     of each column is; the result is that of evaluating without any cache.
     */
    method EvalPredCached(p: Pred, b: Batch, row: nat, ctx: Ctx, addresses: nat -> nat) returns (r: Result<Truth>)
      requires Valid() && BatchOk(b) && row < |b.ids| && ctx.regex == regex
      requires forall k :: k in b.strings ==> addresses(k) in dicts && dicts[addresses(k)] == b.strings[k].dict
      modifies this
      ensures Valid() && dicts == old(dicts) && callsBefore == old(callsBefore)
      ensures r == EvalPred(p, b, row, ctx)
      decreases p
    {
      hide Valid, BatchOk;
      match p
      case And(x, y) =>
        var u := EvalPredCached(x, b, row, ctx, addresses);
        if u.Err? || u.value == Some(false) { return u; }
        var v := EvalPredCached(y, b, row, ctx, addresses);
        if v.Err? || v.value == Some(false) { return v; }
        return Ok(if u.value.None? || v.value.None? then None else Some(true));
      case Or(x, y) =>
        var u := EvalPredCached(x, b, row, ctx, addresses);
        if u.Err? || u.value == Some(true) { return u; }
        var v := EvalPredCached(y, b, row, ctx, addresses);
        if v.Err? || v.value == Some(true) { return v; }
        return Ok(if u.value.None? || v.value.None? then None else Some(false));
      case Not(x) =>
        var u := EvalPredCached(x, b, row, ctx, addresses);
        if u.Err? || u.value.None? { return u; }
        return Ok(Some(!u.value.value));
      case Regex(key, pattern, flags) =>
        r := EvalRegexCached(key, pattern, flags, b, row, ctx, addresses(key));
      case ConstBool(_) => r := EvalPred(p, b, row, ctx);
      case IsNull(_) => r := EvalPred(p, b, row, ctx);
      case NotNull(_) => r := EvalPred(p, b, row, ctx);
      case Cmp(_, _, _) => r := EvalPred(p, b, row, ctx);
      case In(_, _, _) => r := EvalPred(p, b, row, ctx);
    }

    /** Since the last clear the matcher was called once for every entry of every distinct key, in whatever order they came. */
    lemma CallsCounted(keys: seq<Key>)
      requires Valid() && NoDup(keys) && forall k :: k in keys <==> k in used
      ensures matchCalls - callsBefore == SizeSum(keys, dicts)
    {
      SameMembers(keys, used);
      SizeSumSame(keys, used, dicts);
    }
  }

  /** Duplicate-free lists of the same members have the same multiset. */
  lemma SameMembers<T>(a: seq<T>, b: seq<T>)
    requires NoDup(a) && NoDup(b) && forall x :: x in a <==> x in b
    ensures multiset(a) == multiset(b)
  {
    forall x ensures multiset(a)[x] == multiset(b)[x] {
      OnceEach(a, x);
      OnceEach(b, x);
      assert x in a <==> x in multiset(a);
      assert x in b <==> x in multiset(b);
    }
  }
}
