/** The in-memory e-mail rate limiter `emailLimiter`
    (backend/src/services/emailService.js): a map from `ip:timestamp` keys to
    the millisecond each e-mail was recorded, pruned to a sliding window of
    fifteen minutes, and a cap of one hundred e-mails per window for keys that
    start with the client's address. The clock (`Date.now()`) is a parameter
    of every operation that reads it. */
module EmailLimiter {
  import opened Strings

  /** `windowMs`: fifteen minutes in milliseconds. */
  const WindowMs: int := 15 * 60 * 1000

  /** `maxRequests`. */
  const MaxRequests: nat := 100

  /** The entries no older than the window at `now`. */
  ghost function Fresh(emails: map<string, int>, now: int): map<string, int> {
    map k | k in emails && now - emails[k] <= WindowMs :: emails[k]
  }

  /** The keys counted against `ip`: every key that starts with it. */
  ghost function KeysFrom(emails: map<string, int>, ip: string): set<string> {
    set k | k in emails && StartsWith(k, ip)
  }

  /** `${ip}:${Date.now()}`. */
  function RecordKey(ip: string, time: nat): (key: string)
    ensures StartsWith(key, ip)
  {
    ip + ":" + NatToString(time)
  }

  /** Pruning keeps exactly the entries that are at most `WindowMs` old,
      with their timestamps, and is idempotent. */
  lemma FreshRules(emails: map<string, int>, now: int)
    ensures forall k :: k in Fresh(emails, now) <==> k in emails && now - emails[k] <= WindowMs
    ensures forall k :: k in Fresh(emails, now) ==> Fresh(emails, now)[k] == emails[k]
    ensures Fresh(Fresh(emails, now), now) == Fresh(emails, now)
  {
  }

  /** Counting is by prefix: every key of a longer address that starts with
      `ip` is counted against `ip` as well. */
  lemma LongerAddressCounted(emails: map<string, int>, ip: string, more: string)
    ensures KeysFrom(emails, ip + more) <= KeysFrom(emails, ip)
  {
    forall k | k in KeysFrom(emails, ip + more)
      ensures k in KeysFrom(emails, ip)
    {
      assert k[..|ip|] == k[..|ip + more|][..|ip|];
      assert (ip + more)[..|ip|] == ip;
    }
  }

  /** Recording adds one to the count of `ip` when its key is new, and
      nothing when an e-mail was already recorded in the same millisecond. */
  lemma RecordCount(emails: map<string, int>, ip: string, key: string, time: int)
    requires StartsWith(key, ip)
    ensures |KeysFrom(emails[key := time], ip)| == |KeysFrom(emails, ip)| + (if key in emails then 0 else 1)
  {
    if key in emails {
      assert KeysFrom(emails[key := time], ip) == KeysFrom(emails, ip);
    } else {
      assert KeysFrom(emails[key := time], ip) == KeysFrom(emails, ip) + {key};
    }
  }

  /** What the middleware did with a request. */
  datatype Outcome =
    | TooMany  // the 429 handler answered
    | Passed   // the e-mail was recorded and `next` was called

  class Limiter {
    /** `emails`: key to the millisecond the e-mail was recorded. */
    var emails: map<string, int>

    constructor()
      ensures emails == map[]
    {
      emails := map[];
    }

    /** `isRateLimited(ip)` at time `now`: prunes stale entries, then reports
        whether `ip` already has `MaxRequests` entries in the window. */
    method IsRateLimited(ip: string, now: int) returns (limited: bool)
      modifies this
      ensures emails == Fresh(old(emails), now)
      ensures limited <==> |KeysFrom(emails, ip)| >= MaxRequests
    {
      Prune(now);
      var count := CountFrom(ip);
      limited := count >= MaxRequests;
    }

    /** The clean-up loop: deletes every entry older than the window. */
    method Prune(now: int)
      modifies this
      ensures emails == Fresh(old(emails), now)
    {
      var pending := emails.Keys;
      while pending != {}
        invariant pending <= old(emails).Keys
        invariant forall k :: k in emails <==> k in old(emails) && (k in pending || now - old(emails)[k] <= WindowMs)
        invariant forall k :: k in emails ==> emails[k] == old(emails)[k]
        decreases pending
      {
        var key :| key in pending;
        if now - emails[key] > WindowMs {
          emails := emails - {key};
        }
        pending := pending - {key};
      }
      assert emails.Keys == Fresh(old(emails), now).Keys;
    }

    /** The counting loop: the number of keys that start with `ip`. */
    method CountFrom(ip: string) returns (count: nat)
      ensures count == |KeysFrom(emails, ip)|
    {
      count := 0;
      var pending := emails.Keys;
      while pending != {}
        invariant pending <= emails.Keys
        invariant count == |KeysFrom(emails, ip) - pending|
        decreases pending
      {
        var key :| key in pending;
        if StartsWith(key, ip) {
          assert KeysFrom(emails, ip) - (pending - {key}) == (KeysFrom(emails, ip) - pending) + {key};
          count := count + 1;
        } else {
          assert KeysFrom(emails, ip) - (pending - {key}) == KeysFrom(emails, ip) - pending;
        }
        pending := pending - {key};
      }
      assert KeysFrom(emails, ip) - {} == KeysFrom(emails, ip);
    }

    /** `recordEmail(ip)`: the key is built from one reading of the clock
        (`keyTime`) and stores another (`time`). */
    method RecordEmail(ip: string, keyTime: nat, time: int)
      modifies this
      ensures emails == old(emails)[RecordKey(ip, keyTime) := time]
    {
      emails := emails[RecordKey(ip, keyTime) := time];
    }

    /** `middleware(req, res, next)`: a limited address gets the 429 handler
        and records nothing; any other is recorded once and passed on. So an
        address that passes never holds more than `MaxRequests` entries. */
    method Middleware(ip: string, now: int, keyTime: nat, time: int) returns (outcome: Outcome)
      modifies this
      ensures outcome == TooMany <==> |KeysFrom(Fresh(old(emails), now), ip)| >= MaxRequests
      ensures outcome == TooMany ==> emails == Fresh(old(emails), now)
      ensures outcome == Passed ==> emails == Fresh(old(emails), now)[RecordKey(ip, keyTime) := time]
      ensures outcome == Passed ==> |KeysFrom(emails, ip)| <= MaxRequests
    {
      var limited := IsRateLimited(ip, now);
      if limited {
        return TooMany;
      }
      ghost var pruned := emails;
      RecordEmail(ip, keyTime, time);
      RecordCount(pruned, ip, RecordKey(ip, keyTime), time);
      outcome := Passed;
    }
  }
}
