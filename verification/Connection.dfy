/** The connection marci and the query service hold: one Redis database and its clock. */
module Connection {
  import opened Wrappers
  import opened Redis
  import opened Keys

  class RedisConnection {
    var data: map<string, Entry>
    var now: nat

    constructor ()
      ensures data == map[] && now == 0
    {
      data, now := map[], 0;
    }

    /** Time passes; it never runs back. */
    method Wait(ms: nat)
      modifies this`now
      ensures now == old(now) + ms
    {
      now := now + ms;
    }

    /** Time passes until `t`. */
    method WaitUntil(t: nat)
      requires now <= t
      modifies this`now
      ensures now == t
    {
      now := t;
    }

    method Set(key: string, text: string)
      modifies this`data
      ensures data == Exec(old(data), now, Cmd(key, Op.Set(text)))
    {
      data := data[key := Entry(Text(text), None)];
    }

    method SetEx(key: string, text: string, ttl: nat)
      modifies this`data
      ensures data == Exec(old(data), now, Cmd(key, Op.SetEx(text, ttl)))
    {
      data := data[key := Entry(Text(text), Some(now + Ms(ttl)))];
    }

    method Expire(key: string, ttl: nat)
      modifies this`data
      ensures data == Exec(old(data), now, Cmd(key, Op.Expire(ttl)))
    {
      match Live(Find(data, key), now) {
        case Some(v) => data := data[key := Entry(v, Some(now + Ms(ttl)))];
        case None => data := data - {key};
      }
    }

    method Del(key: string)
      modifies this`data
      ensures data == Exec(old(data), now, Cmd(key, Op.Del))
    {
      data := data - {key};
    }

    method SAdd(key: string, member: string)
      modifies this`data
      ensures data == Exec(old(data), now, Cmd(key, Op.SAdd(member)))
    {
      match Live(Find(data, key), now) {
        case Some(Members(ms)) => data := data[key := Entry(Members(ms + {member}), data[key].expiry)];
        case Some(Text(_)) => assert Exec(data, now, Cmd(key, Op.SAdd(member))) == data;
        case None => data := data[key := Entry(Members({member}), None)];
      }
    }

    method Get(key: string) returns (r: Option<string>)
      ensures r == Redis.Get(data, now, key)
    {
      match Live(Find(data, key), now) {
        case Some(Text(t)) => r := Some(t);
        case _ => r := None;
      }
    }

    method SCard(key: string) returns (n: nat)
      ensures n == Redis.SCard(data, now, key)
    {
      match Live(Find(data, key), now) {
        case Some(Members(ms)) => n := |ms|;
        case _ => n := 0;
      }
    }

    /** The members of a set, each once, in whatever order the server likes. */
    method SMembers(key: string) returns (ms: seq<string>)
      ensures NoDuplicates(ms)
      ensures forall m :: m in ms <==> m in Redis.SMembers(data, now, key)
    {
      ms := [];
      var rest := Redis.SMembers(data, now, key);
      while rest != {}
        invariant NoDuplicates(ms)
        invariant forall m :: m in ms ==> m !in rest
        invariant forall m :: m in ms || m in rest <==> m in Redis.SMembers(data, now, key)
        decreases rest
      {
        var m :| m in rest;
        ms, rest := ms + [m], rest - {m};
      }
    }

    method Keys(pattern: string) returns (ks: seq<string>)
      ensures IsListing(data, now, pattern, ks)
    {
      ks := [];
      var rest := data.Keys;
      while rest != {}
        invariant rest <= data.Keys
        invariant NoDuplicates(ks)
        invariant forall k :: k in ks <==> k in data && k !in rest && Live(Find(data, k), now).Some? && Glob(pattern, k)
        decreases rest
      {
        var k :| k in rest;
        rest := rest - {k};
        if Live(Find(data, k), now).Some? && Glob(pattern, k) {
          ks := ks + [k];
        }
      }
    }
  }
}
