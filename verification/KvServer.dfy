/** The versioned key/value server: RPC messages, the store, and the two handlers. */
module KvServer {

  datatype Option<+T> = None | Some(value: T)

  datatype Err = OK | ErrNoKey | ErrVersion | ErrMaybe

  /** One element of the list that the append clients store. */
  datatype Entry = Entry(id: nat, n: nat)

  /** A stored value. `Text` is a plain string; the other two constructors stand for
      the JSON text of the records that the concurrent test clients store. */
  datatype Value = Text(text: string) | Stamp(id: nat, ver: nat) | Entries(es: seq<Entry>)

  const EMPTY := Text("")

  datatype Versioned = Versioned(val: Value, ver: nat)

  type Store = map<string, Versioned>

  datatype Request = Get(key: string) | Put(key: string, val: Value, ver: nat)

  datatype Reply = Reply(val: Value, ver: nat, err: Err)

  function PutReply(err: Err): Reply {
    Reply(EMPTY, 0, err)
  }

  /** One execution of a handler under the server's mutex. */
  function Handle(st: Store, req: Request): (Store, Reply) {
    match req
    case Get(k) =>
      if k in st then (st, Reply(st[k].val, st[k].ver, OK)) else (st, Reply(EMPTY, 0, ErrNoKey))
    case Put(k, v, ver) =>
      if k in st then
        if ver == st[k].ver then (st[k := Versioned(v, ver + 1)], PutReply(OK)) else (st, PutReply(ErrVersion))
      else
        if ver == 0 then (st[k := Versioned(v, 1)], PutReply(OK)) else (st, PutReply(ErrNoKey))
  }

  /** The version of a key, 0 when the key does not exist. */
  function VersionOf(st: Store, key: string): nat {
    if key in st then st[key].ver else 0
  }

  /** Every stored version counts at least the Put that created the key. */
  ghost predicate PositiveVersions(st: Store) {
    forall k :: k in st ==> st[k].ver >= 1
  }

  /** A Put takes effect exactly when its version is the key's version (0 for a missing
      key). A handler never changes another key, never removes one, never lowers a version. */
  lemma HandleEffect(st: Store, req: Request)
    requires PositiveVersions(st)
    ensures var (st', r) := Handle(st, req);
            && PositiveVersions(st')
            && (forall k :: k != req.key ==> (k in st' <==> k in st) && (k in st ==> st'[k] == st[k]))
            && (req.key in st ==> req.key in st')
            && (req.Put? ==> (r.err == OK <==> VersionOf(st, req.key) == req.ver))
            && (req.Put? && r.err == OK ==> req.key in st' && st'[req.key] == Versioned(req.val, req.ver + 1))
            && (!(req.Put? && r.err == OK) ==> st' == st)
            && VersionOf(st', req.key) == VersionOf(st, req.key) + (if req.Put? && r.err == OK then 1 else 0)
  {
  }

  /** The server object; `kv` is the map guarded by the mutex. */
  class KVServer {
    var kv: Store

    constructor ()
      ensures kv == map[]
    {
      kv := map[];
    }

    method Get(key: string) returns (reply: Reply)
      ensures (kv, reply) == Handle(kv, Request.Get(key))
    {
      if key !in kv {
        reply := Reply(EMPTY, 0, ErrNoKey);
      } else {
        var e := kv[key];
        reply := Reply(e.val, e.ver, OK);
      }
    }

    method Put(key: string, val: Value, ver: nat) returns (reply: Reply)
      modifies this
      ensures (kv, reply) == Handle(old(kv), Request.Put(key, val, ver))
    {
      if key in kv {
        var e := kv[key];
        if ver == e.ver {
          kv := kv[key := Versioned(val, ver + 1)];
          reply := PutReply(OK);
        } else {
          reply := PutReply(ErrVersion);
        }
      } else if ver == 0 {
        kv := kv[key := Versioned(val, 1)];
        reply := PutReply(OK);
      } else {
        reply := PutReply(ErrNoKey);
      }
    }
  }
}
