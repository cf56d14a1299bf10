/** The few Redis ZSET commands the rate limiter issues, as functions on values.
    A key with no members is the same as a missing key. */
module RedisZset {
  type Time = int
  type ExecId = nat

  datatype Zset = Zset(scores: map<ExecId, Time>, expireAt: Time)

  const ABSENT := Zset(map[], 0)

  function ZRemRangeByScore(z: Zset, lo: Time, hi: Time): Zset {
    z.(scores := map e | e in z.scores && !(lo <= z.scores[e] <= hi) :: z.scores[e])
  }

  function ZRem(z: Zset, e: ExecId): Zset {
    z.(scores := z.scores - {e})
  }

  /** ZADD followed by EXPIRE in one transaction. */
  function ZAddExpire(z: Zset, e: ExecId, score: Time, deadline: Time): Zset {
    Zset(z.scores[e := score], deadline)
  }

  function ZCard(z: Zset): nat {
    |z.scores.Keys|
  }

  lemma {:induction false} CardSubset<T>(a: set<T>, b: set<T>)
    requires a <= b
    ensures |a| <= |b|
    decreases a
  {
    if a == {} {
    } else {
      var x :| x in a;
      CardSubset(a - {x}, b - {x});
    }
  }
}
