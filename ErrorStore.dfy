/** The per-field, ordered error collector of the entity validator: `errors[field][]`. */
module ErrorStore {
  import opened Values
  import opened Strings
  import opened OrderedMaps

  datatype ErrorEntry = ErrorEntry(message: string, params: map<string, string>)

  /** One `setError(field, message, params)` call, before it reaches the store. */
  datatype Recorded = Recorded(field: string, message: string, params: map<string, string>)

  /** Field name to the entries recorded for it, fields in the order of their first error. */
  type Store = OMap<seq<ErrorEntry>>

  /** The separator of the squashed rendering. */
  const Separator := "\n\r"

  function Entries(s: Store, f: string): seq<ErrorEntry> {
    if f in s.values then s.values[f] else []
  }

  /** The entry `setError` stores: `params['@field']` is forced to the field name. */
  function Stamp(r: Recorded): (e: ErrorEntry)
    ensures e.message == r.message
    ensures "@field" in e.params && e.params["@field"] == r.field
    ensures forall p :: p in r.params && p != "@field" ==> p in e.params && e.params[p] == r.params[p]
    ensures e.params.Keys == r.params.Keys + {"@field"}
  {
    ErrorEntry(r.message, r.params["@field" := r.field])
  }

  /** `setError`: exactly one entry is appended to the field's list; every other list is untouched. */
  function Add(s: Store, r: Recorded): (t: Store)
    ensures Entries(t, r.field) == Entries(s, r.field) + [Stamp(r)]
    ensures forall g :: g != r.field ==> Entries(t, g) == Entries(s, g)
    ensures t.keys == if r.field in s.values then s.keys else s.keys + [r.field]
  {
    Put(s, r.field, Entries(s, r.field) + [Stamp(r)])
  }

  /** The store after the calls `rs`, in order. */
  function AddAll(s: Store, rs: seq<Recorded>): Store
    decreases |rs|
  {
    if rs == [] then s else Add(AddAll(s, rs[..|rs| - 1]), rs[|rs| - 1])
  }

  /** The entries the calls `rs` make for field `f`, in call order. */
  function EntriesFor(rs: seq<Recorded>, f: string): seq<ErrorEntry>
    decreases |rs|
  {
    if rs == [] then []
    else EntriesFor(rs[..|rs| - 1], f) + (if rs[|rs| - 1].field == f then [Stamp(rs[|rs| - 1])] else [])
  }

  lemma AddAllSnoc(s: Store, a: seq<Recorded>, r: Recorded)
    ensures AddAll(s, a + [r]) == Add(AddAll(s, a), r)
  {
    assert (a + [r])[..|a|] == a;
  }

  /** The chunks `0..n-1`, one after the other. */
  function ConcatN<T>(chunks: seq<seq<T>>, n: nat): seq<T>
    requires n <= |chunks|
  {
    if n == 0 then [] else ConcatN(chunks, n - 1) + chunks[n - 1]
  }

  /** A log that held the first `i` chunks holds the first `i + 1` once chunk `i` is appended. */
  lemma LogStep<T>(log: seq<T>, chunks: seq<seq<T>>, i: nat)
    requires i < |chunks|
    ensures (log + ConcatN(chunks, i)) + chunks[i] == log + ConcatN(chunks, i + 1)
  {
  }

  /** `log` is `base` followed by the first `n` chunks. */
  predicate Logged<T(==)>(log: seq<T>, base: seq<T>, chunks: seq<seq<T>>, n: nat)
    requires n <= |chunks|
  {
    log == base + ConcatN(chunks, n)
  }

  /** Appending chunk `i` to a log that held the first `i` chunks. */
  lemma LoggedStep<T>(log: seq<T>, base: seq<T>, chunks: seq<seq<T>>, i: nat)
    requires i < |chunks| && Logged(log, base, chunks, i)
    ensures Logged(log + chunks[i], base, chunks, i + 1)
  {
  }

  /** A log that grew by `a`, then `b`, grew by `a + b`. */
  lemma LogTwice<T>(log: seq<T>, a: seq<T>, b: seq<T>)
    ensures (log + a) + b == log + (a + b)
  {
  }

  /** Joining fewer chunks gives a prefix of joining more. */
  lemma {:induction false} ConcatNPrefix<T>(chunks: seq<seq<T>>, m: nat, n: nat)
    requires m <= n <= |chunks|
    ensures ConcatN(chunks, m) <= ConcatN(chunks, n)
    decreases n - m
  {
    if m < n {
      ConcatNPrefix(chunks, m, n - 1);
    }
  }

  /** Empty chunks join to nothing. */
  lemma {:induction false} ConcatNEmpty<T>(chunks: seq<seq<T>>, n: nat)
    requires n <= |chunks|
    requires forall i :: 0 <= i < n ==> chunks[i] == []
    ensures ConcatN(chunks, n) == []
    decreases n
  {
    if n > 0 {
      ConcatNEmpty(chunks, n - 1);
    }
  }

  /** Chunks holding nothing but `x` join to a sequence holding nothing but `x`. */
  lemma {:induction false} ConcatNOnly<T>(chunks: seq<seq<T>>, n: nat, x: T)
    requires n <= |chunks|
    requires forall i :: 0 <= i < n ==> forall w :: w in chunks[i] ==> w == x
    ensures forall w :: w in ConcatN(chunks, n) ==> w == x
    decreases n
  {
    if n > 0 {
      ConcatNOnly(chunks, n - 1, x);
    }
  }

  /** The index of the first non-empty chunk among the first `n`, or `n` when all are empty. */
  function FirstFilled<T>(chunks: seq<seq<T>>, n: nat): (k: nat)
    requires n <= |chunks|
    ensures k <= n
    ensures forall j :: 0 <= j < k ==> chunks[j] == []
    ensures k < n ==> chunks[k] != []
    decreases n
  {
    if n == 0 then 0
    else if FirstFilled(chunks, n - 1) < n - 1 then FirstFilled(chunks, n - 1)
    else if chunks[n - 1] != [] then n - 1
    else n
  }

  /** The joined chunks are empty exactly when every chunk is, and otherwise start with the
      first element of the first non-empty chunk. */
  lemma {:induction false} ConcatNHead<T>(chunks: seq<seq<T>>, n: nat)
    requires n <= |chunks|
    ensures ConcatN(chunks, n) == [] <==> FirstFilled(chunks, n) == n
    ensures FirstFilled(chunks, n) < n ==> ConcatN(chunks, n)[0] == chunks[FirstFilled(chunks, n)][0]
    decreases n
  {
    if n > 0 {
      ConcatNHead(chunks, n - 1);
    }
  }

  /** Each field's list holds exactly that field's entries, in call order: nothing is
      reordered, merged or lost. */
  lemma {:induction false} AddAllEntries(s: Store, rs: seq<Recorded>, f: string)
    ensures Entries(AddAll(s, rs), f) == Entries(s, f) + EntriesFor(rs, f)
    decreases |rs|
  {
    if rs != [] {
      AddAllEntries(s, rs[..|rs| - 1], f);
    }
  }

  predicate NoEmptyLists(s: Store) {
    forall k :: k in s.values ==> s.values[k] != []
  }

  /** Starting from the empty store, every listed field has at least one entry, and there is a
      field exactly when some call was made. */
  lemma {:induction false} AddAllFromEmpty(rs: seq<Recorded>)
    ensures NoEmptyLists(AddAll(Empty(), rs))
    ensures AddAll(Empty(), rs).keys == [] <==> rs == []
    decreases |rs|
  {
    if rs != [] {
      AddAllFromEmpty(rs[..|rs| - 1]);
      var s := AddAll(Empty(), rs[..|rs| - 1]);
      var r := rs[|rs| - 1];
      forall k | k in Add(s, r).values
        ensures Add(s, r).values[k] != []
      {
        assert Entries(Add(s, r), k) == Add(s, r).values[k];
        if k != r.field {
          assert Entries(s, k) == Add(s, r).values[k];
        }
      }
    }
  }

  /** Every entry, field by field in key order, then entry by entry. */
  function FlattenKeys(ks: seq<string>, values: map<string, seq<ErrorEntry>>): seq<ErrorEntry>
    requires forall k :: k in ks ==> k in values
    decreases |ks|
  {
    if ks == [] then [] else FlattenKeys(ks[..|ks| - 1], values) + values[ks[|ks| - 1]]
  }

  function Flatten(s: Store): seq<ErrorEntry> {
    FlattenKeys(s.keys, s.values)
  }

  /** Each entry formatted by `format_string`. */
  function RenderAll(render: (string, map<string, string>) -> string, es: seq<ErrorEntry>): (r: seq<string>)
    ensures |r| == |es|
    decreases |es|
  {
    if es == [] then [] else RenderAll(render, es[..|es| - 1]) + [render(es[|es| - 1].message, es[|es| - 1].params)]
  }

  lemma RenderAllSnoc(render: (string, map<string, string>) -> string, es: seq<ErrorEntry>, e: ErrorEntry)
    ensures RenderAll(render, es + [e]) == RenderAll(render, es) + [render(e.message, e.params)]
  {
    assert (es + [e])[..|es|] == es;
  }

  lemma EntriesPrefixStep(done: seq<ErrorEntry>, list: seq<ErrorEntry>, j: nat)
    requires j < |list|
    ensures done + list[..j + 1] == (done + list[..j]) + [list[j]]
  {
    assert list[..j + 1] == list[..j] + [list[j]];
  }

  lemma FlattenKeysStep(ks: seq<string>, values: map<string, seq<ErrorEntry>>, i: nat)
    requires forall k :: k in ks ==> k in values
    requires i < |ks|
    ensures forall k :: k in ks[..i] ==> k in values
    ensures FlattenKeys(ks[..i + 1], values) == FlattenKeys(ks[..i], values) + values[ks[i]]
  {
    assert ks[..i + 1][..i] == ks[..i];
  }

  /** `getErrors(TRUE)`: every rendered entry joined with "\n\r". */
  function Squash(render: (string, map<string, string>) -> string, s: Store): string {
    Join(Separator, RenderAll(render, Flatten(s)))
  }

  lemma {:induction false} FlattenNonEmpty(ks: seq<string>, values: map<string, seq<ErrorEntry>>)
    requires forall k :: k in ks ==> k in values
    requires forall k :: k in ks ==> values[k] != []
    ensures FlattenKeys(ks, values) == [] <==> ks == []
  {
  }

  /** The squashed text is PHP-falsy ("" or "0") exactly when no error was recorded, provided
      the formatter never produces "" or "0" for one message. */
  lemma SquashFalsyIff(render: (string, map<string, string>) -> string, rs: seq<Recorded>)
    requires forall t, p :: !EmptyString(render(t, p))
    ensures EmptyString(Squash(render, AddAll(Empty(), rs))) <==> rs == []
  {
    var s := AddAll(Empty(), rs);
    AddAllFromEmpty(rs);
    FlattenNonEmpty(s.keys, s.values);
    var parts := RenderAll(render, Flatten(s));
    if |parts| == 1 {
      assert parts[0] == render(Flatten(s)[0].message, Flatten(s)[0].params);
    }
  }

  /** `getErrors()` on an empty store is the empty string, whatever the formatter. */
  lemma SquashEmpty(render: (string, map<string, string>) -> string)
    ensures Squash(render, Empty()) == ""
  {
  }
}
