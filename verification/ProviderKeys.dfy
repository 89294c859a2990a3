/**
 Stored provider keys: rows whose ciphertext cannot be decrypted are deleted, one
 conditional DELETE each, while other writers change the table; then a model's key is
 resolved, or its loss is reported.
 */
module ProviderKeys {
  import opened Options

  datatype KeyRow = KeyRow(provider: string, ciphertext: string, valid: bool)

  /** ai.ai_provider_keys by id; provider is UNIQUE. */
  type Table = map<nat, KeyRow>

  /** `decrypt_api_key`: a plaintext, ValueError for one row, or anything else it may raise. */
  datatype Decrypted = Plain(key: string) | InvalidToken | Misconfigured

  /** What happens around one DELETE: rows others wrote or removed since the last one, and whether it fails. */
  datatype Turn = Turn(written: Table, removed: set<nat>, fails: bool)

  ghost predicate UniqueProviders(table: Table) {
    forall i, j :: i in table && j in table && table[i].provider == table[j].provider ==> i == j
  }

  function Others(table: Table, turn: Turn): Table {
    (table - turn.removed) + turn.written
  }

  /** The DELETE keyed on id and ciphertext matches its row. */
  predicate StillBad(table: Table, id: nat, ciphertext: string) {
    id in table && table[id].ciphertext == ciphertext
  }

  /** A row as it was read; the heal deletes by its id and this ciphertext. */
  datatype BadRow = BadRow(id: nat, row: KeyRow)

  /** The table when the DELETE of `bad[n]` runs, with everything that happened before it. */
  function TableAt(table: Table, bad: seq<BadRow>, turns: nat -> Turn, n: nat): Table
    requires n < |bad|
  {
    Others(TableAfter(table, bad, turns, n), turns(bad[n].id))
  }

  function TableAfter(table: Table, bad: seq<BadRow>, turns: nat -> Turn, n: nat): Table
    requires n <= |bad|
  {
    if n == 0 then table else
      var (b, turn) := (bad[n - 1], turns(bad[n - 1].id));
      var now := Others(TableAfter(table, bad, turns, n - 1), turn);
      if !turn.fails && StillBad(now, b.id, b.row.ciphertext) then now - {b.id} else now
  }

  /** What other transactions see meanwhile: the DELETEs are not committed. */
  function OthersAfter(table: Table, bad: seq<BadRow>, turns: nat -> Turn, n: nat): Table
    requires n <= |bad|
  {
    if n == 0 then table else Others(OthersAfter(table, bad, turns, n - 1), turns(bad[n - 1].id))
  }

  /** The provider of `bad[n]` stays reported: the DELETE failed, or it matched. */
  predicate Reported(table: Table, bad: seq<BadRow>, turns: nat -> Turn, n: nat)
    requires n < |bad|
  {
    turns(bad[n].id).fails || StillBad(TableAt(table, bad, turns, n), bad[n].id, bad[n].row.ciphertext)
  }

  /** `query.filter_by(is_valid=True).all()`: every valid row once, in whatever order. */
  ghost predicate IsQueryResult(table: Table, order: seq<nat>) {
    && (forall id :: id in order <==> id in table && table[id].valid)
    && (forall j, k :: 0 <= j < k < |order| ==> order[j] != order[k])
  }

  /** The rows that raise ValueError, in query order. */
  function BadRows(table: Table, decrypt: string -> Decrypted, order: seq<nat>): seq<BadRow> {
    if order == [] then [] else
      var id := order[|order| - 1];
      BadRows(table, decrypt, order[..|order| - 1]) +
      (if id in table && decrypt(table[id].ciphertext).InvalidToken? then [BadRow(id, table[id])] else [])
  }

  function Providers(bad: seq<BadRow>): seq<string> {
    seq(|bad|, k requires 0 <= k < |bad| => bad[k].row.provider)
  }

  /** What is left of `dropped` when the first n DELETEs are done. */
  function Dropped(table: Table, bad: seq<BadRow>, turns: nat -> Turn, n: nat): seq<string>
    requires n <= |bad|
  {
    if n == 0 then Providers(bad)
    else if Reported(table, bad, turns, n - 1) then Dropped(table, bad, turns, n - 1)
    else RemoveFirst(Dropped(table, bad, turns, n - 1), bad[n - 1].row.provider)
  }

  lemma {:induction false} BadRowsExact(table: Table, decrypt: string -> Decrypted, order: seq<nat>, b: BadRow)
    requires forall id :: id in order ==> id in table
    ensures b in BadRows(table, decrypt, order) <==>
      b.id in order && b.id in table && b.row == table[b.id] && decrypt(b.row.ciphertext).InvalidToken?
  {
    if order != [] {
      BadRowsExact(table, decrypt, order[..|order| - 1], b);
      assert order == order[..|order| - 1] + [order[|order| - 1]];
    }
  }

  lemma {:induction false} BadRowsDistinct(table: Table, decrypt: string -> Decrypted, order: seq<nat>)
    requires UniqueProviders(table) && IsQueryResultPart(table, order)
    ensures Distinct(Providers(BadRows(table, decrypt, order)))
  {
    if order != [] {
      var front, last := order[..|order| - 1], order[|order| - 1];
      BadRowsDistinct(table, decrypt, front);
      var before := BadRows(table, decrypt, front);
      assert last in order;
      forall k | 0 <= k < |before|
        ensures Providers(before)[k] != table[last].provider
      {
        assert before[k] in before;
        BadRowsExact(table, decrypt, front, before[k]);
        var m :| 0 <= m < |front| && front[m] == before[k].id;
        assert order[m] != last;
      }
      var bad := BadRows(table, decrypt, order);
      assert forall k :: 0 <= k < |before| ==> Providers(bad)[k] == Providers(before)[k];
    }
  }

  ghost predicate IsQueryResultPart(table: Table, order: seq<nat>) {
    && (forall id :: id in order ==> id in table)
    && (forall j, k :: 0 <= j < k < |order| ==> order[j] != order[k])
  }

  lemma {:induction false} DroppedDistinct(table: Table, bad: seq<BadRow>, turns: nat -> Turn, n: nat)
    requires n <= |bad| && Distinct(Providers(bad))
    ensures Distinct(Dropped(table, bad, turns, n))
    ensures forall p :: p in Dropped(table, bad, turns, n) ==> p in Providers(bad)
  {
    if n > 0 {
      DroppedDistinct(table, bad, turns, n - 1);
      RemoveFirstDistinct(Dropped(table, bad, turns, n - 1), bad[n - 1].row.provider);
    }
  }

  lemma DroppedOneMore(table: Table, bad: seq<BadRow>, turns: nat -> Turn, n: nat, k: nat)
    requires n < |bad| && Distinct(Providers(bad)) && k < |bad|
    ensures
      var p := bad[k].row.provider;
      p in Dropped(table, bad, turns, n + 1) <==>
      p in Dropped(table, bad, turns, n) && (k != n || Reported(table, bad, turns, n))
  {
    DroppedDistinct(table, bad, turns, n);
    RemoveFirstDistinct(Dropped(table, bad, turns, n), bad[n].row.provider);
    assert k != n ==> Providers(bad)[k] != Providers(bad)[n];
  }

  lemma AllDroppedAtFirst(table: Table, bad: seq<BadRow>, turns: nat -> Turn, k: nat)
    requires k < |bad|
    ensures bad[k].row.provider in Dropped(table, bad, turns, 0)
  {
    assert Providers(bad)[k] == bad[k].row.provider;
  }

  /** A provider stays dropped exactly when its DELETE is still to come, failed, or matched. */
  lemma {:induction false} DroppedExactly(table: Table, bad: seq<BadRow>, turns: nat -> Turn, n: nat, k: nat)
    requires n <= |bad| && Distinct(Providers(bad)) && k < |bad|
    ensures bad[k].row.provider in Dropped(table, bad, turns, n) <==> k >= n || Reported(table, bad, turns, k)
  {
    if n == 0 {
      AllDroppedAtFirst(table, bad, turns, k);
    } else {
      var m := n - 1;
      DroppedExactly(table, bad, turns, m, k);
      DroppedOneMore(table, bad, turns, m, k);
    }
  }

  /** Row `n` of the undecryptable ones is stored under `p` and stays reported. */
  predicate DroppedAt(table: Table, bad: seq<BadRow>, turns: nat -> Turn, n: nat, p: string) {
    n < |bad| && bad[n].row.provider == p && Reported(table, bad, turns, n)
  }

  lemma DroppedByName(table: Table, bad: seq<BadRow>, turns: nat -> Turn, dropped: seq<string>, p: string)
    requires forall n :: 0 <= n < |bad| ==> (bad[n].row.provider in dropped <==> Reported(table, bad, turns, n))
    requires forall q :: q in dropped ==> q in Providers(bad)
    ensures p in dropped <==> exists n :: DroppedAt(table, bad, turns, n, p)
  {
    if p in dropped {
      var n :| 0 <= n < |bad| && Providers(bad)[n] == p;
      assert DroppedAt(table, bad, turns, n, p);
    }
  }

  /** The row gives a usable key. */
  predicate Readable(decrypt: string -> Decrypted, row: KeyRow) {
    decrypt(row.ciphertext).Plain? && decrypt(row.ciphertext).key != ""
  }

  ghost predicate ReadAs(table: Table, decrypt: string -> Decrypted, order: seq<nat>, p: string, key: string) {
    exists id ::
      id in order && id in table && table[id].provider == p && decrypt(table[id].ciphertext) == Plain(key)
  }

  /** What the first loop knows of the rows read so far: nothing raised, `bad` are the dead ones, `out` the others. */
  ghost predicate Read(table: Table, decrypt: string -> Decrypted, order: seq<nat>,
                       out: map<string, string>, bad: seq<BadRow>) {
    && (forall id :: id in order ==> id in table && !decrypt(table[id].ciphertext).Misconfigured?)
    && bad == BadRows(table, decrypt, order)
    && (forall p :: p in out ==> ReadAs(table, decrypt, order, p, out[p]))
    && (forall id :: id in order && id in table && decrypt(table[id].ciphertext).Plain? ==> table[id].provider in out)
  }

  lemma ReadMore(table: Table, decrypt: string -> Decrypted, order: seq<nat>, id: nat, p: string, key: string)
    requires ReadAs(table, decrypt, order, p, key)
    ensures ReadAs(table, decrypt, order + [id], p, key)
  {
  }

  lemma ReadPlain(table: Table, decrypt: string -> Decrypted, order: seq<nat>,
                  out: map<string, string>, bad: seq<BadRow>, id: nat)
    requires Read(table, decrypt, order, out, bad) && id in table && decrypt(table[id].ciphertext).Plain?
    ensures Read(table, decrypt, order + [id], out[table[id].provider := decrypt(table[id].ciphertext).key], bad)
  {
    assert (order + [id])[..|order|] == order;
    var next := out[table[id].provider := decrypt(table[id].ciphertext).key];
    assert id in order + [id];
    forall p | p in next ensures ReadAs(table, decrypt, order + [id], p, next[p]) {
      if p != table[id].provider { ReadMore(table, decrypt, order, id, p, out[p]); }
    }
  }

  lemma ReadInvalid(table: Table, decrypt: string -> Decrypted, order: seq<nat>,
                    out: map<string, string>, bad: seq<BadRow>, id: nat)
    requires Read(table, decrypt, order, out, bad) && id in table && decrypt(table[id].ciphertext).InvalidToken?
    ensures Read(table, decrypt, order + [id], out, bad + [BadRow(id, table[id])])
  {
    assert (order + [id])[..|order|] == order;
    forall p | p in out ensures ReadAs(table, decrypt, order + [id], p, out[p]) {
      ReadMore(table, decrypt, order, id, p, out[p]);
    }
  }

  datatype Result = Raised | Keys(keys: map<string, string>, dropped: seq<string>)

  class KeyStore {
    var rows: Table                       // as the request's transaction sees them
    var committed: Table                  // as all other transactions do

    /** One conditional DELETE in its savepoint; `matched` is rowcount > 0. */
    method DeleteIfUnchanged(id: nat, ciphertext: string, turn: Turn) returns (failed: bool, matched: bool)
      modifies this
      ensures failed == turn.fails
      ensures matched == (!turn.fails && StillBad(Others(old(rows), turn), id, ciphertext))
      ensures rows == if matched then Others(old(rows), turn) - {id} else Others(old(rows), turn)
      ensures committed == Others(old(committed), turn)
    {
      rows, committed := Others(rows, turn), Others(committed, turn);
      failed := turn.fails;
      matched := !failed && id in rows && rows[id].ciphertext == ciphertext;
      if matched {
        rows := rows - {id};
      }
    }

    /** The first loop: decrypt the rows the query gave. */
    method DecryptAll(decrypt: string -> Decrypted, order: seq<nat>)
      returns (raised: bool, out: map<string, string>, bad: seq<BadRow>, decryptFailed: seq<string>)
      requires forall id :: id in order ==> id in rows
      ensures raised <==> exists id :: id in order && decrypt(rows[id].ciphertext).Misconfigured?
      ensures !raised ==> Read(rows, decrypt, order, out, bad) && decryptFailed == Providers(bad)
    {
      var table := rows;
      out, bad, decryptFailed := map[], [], [];
      for n := 0 to |order|
        invariant Read(table, decrypt, order[..n], out, bad) && decryptFailed == Providers(bad)
      {
        var id := order[n];
        assert order[..n + 1] == order[..n] + [id];
        match decrypt(table[id].ciphertext)
        case Plain(key) =>
          ReadPlain(table, decrypt, order[..n], out, bad, id);
          out := out[table[id].provider := key];
        case InvalidToken =>
          ReadInvalid(table, decrypt, order[..n], out, bad, id);
          bad, decryptFailed := bad + [BadRow(id, table[id])], decryptFailed + [table[id].provider];
        case Misconfigured => return true, out, bad, decryptFailed;
      }
      assert order[..|order|] == order;
      raised := false;
    }

    /** The second loop: one DELETE per bad row. */
    method HealAll(bad: seq<BadRow>, decryptFailed: seq<string>, turns: nat -> Turn) returns (dropped: seq<string>)
      requires decryptFailed == Providers(bad)
      modifies this
      ensures rows == TableAfter(old(rows), bad, turns, |bad|)
      ensures dropped == Dropped(old(rows), bad, turns, |bad|)
      ensures committed == OthersAfter(old(committed), bad, turns, |bad|)
    {
      dropped := decryptFailed;
      for n := 0 to |bad|
        invariant rows == TableAfter(old(rows), bad, turns, n)
        invariant dropped == Dropped(old(rows), bad, turns, n)
        invariant committed == OthersAfter(old(committed), bad, turns, n)
      {
        var failed, matched := DeleteIfUnchanged(bad[n].id, bad[n].row.ciphertext, turns(bad[n].id));
        if !failed && !matched {
          dropped := RemoveFirst(dropped, bad[n].row.provider);
        }
      }
    }

    /**
     `get_user_provider_keys_with_dropped`. A provider is dropped exactly when its row could
     not be decrypted and its DELETE either failed or found the row still unchanged.
     */
    method GetWithDropped(decrypt: string -> Decrypted, order: seq<nat>, turns: nat -> Turn) returns (result: Result)
      requires UniqueProviders(rows) && IsQueryResult(rows, order)
      modifies this
      ensures result.Raised? <==> exists id :: id in order && decrypt(old(rows)[id].ciphertext).Misconfigured?
      ensures result.Raised? ==> rows == old(rows) && committed == old(committed)
      ensures result.Keys? ==>
        var bad := BadRows(old(rows), decrypt, order);
        && rows == TableAfter(old(rows), bad, turns, |bad|)
        && committed == OthersAfter(old(committed), bad, turns, |bad|)
        && (forall n :: 0 <= n < |bad| ==>
              (bad[n].row.provider in result.dropped <==> Reported(old(rows), bad, turns, n)))
        && (forall p :: p in result.dropped ==> p in Providers(bad))
        && (forall id :: id in order && decrypt(old(rows)[id].ciphertext).Plain? ==>
              && old(rows)[id].provider in result.keys
              && result.keys[old(rows)[id].provider] == decrypt(old(rows)[id].ciphertext).key)
        && (forall p :: p in result.keys ==>
              exists id :: id in order && old(rows)[id].provider == p && decrypt(old(rows)[id].ciphertext).Plain?)
        && (forall p :: p in result.keys ==> p !in result.dropped)
    {
      ghost var table := rows;
      var raised, out, bad, decryptFailed := DecryptAll(decrypt, order);
      if raised {
        return Raised;
      }
      var dropped := HealAll(bad, decryptFailed, turns);
      BadRowsDistinct(table, decrypt, order);
      DroppedDistinct(table, bad, turns, |bad|);
      forall n | 0 <= n < |bad|
        ensures bad[n].row.provider in dropped <==> Reported(table, bad, turns, n)
      {
        DroppedExactly(table, bad, turns, |bad|, n);
      }
      forall p | p in out
        ensures p !in Providers(bad)
      {
        KeptIsNotBad(table, decrypt, order, p);
      }
      result := Keys(out, dropped);
    }

    /**
     `resolve_api_key_or_raise_for_drop`. For every schedule of concurrent writes it raises
     exactly when no key exists for the model's provider, neither in a readable row nor in the
     environment, and a row stored under that very name, not under its alias, could not be
     decrypted and was not changed or removed by others before its DELETE.
     */
    method ResolveForModel(decrypt: string -> Decrypted, order: seq<nat>, turns: nat -> Turn,
                           provider: Option<string>, env: map<string, string>)
      returns (raised: bool, resolution: Resolution)
      requires UniqueProviders(rows) && IsQueryResult(rows, order)
      modifies this
      ensures raised <==> exists id :: id in order && decrypt(old(rows)[id].ciphertext).Misconfigured?
      ensures !raised && provider.None? ==> resolution == NoKey
      ensures !raised && provider.Some? ==>
        var name, variable := Alias(provider.value), EnvName(provider.value);
        if exists id :: id in order && old(rows)[id].provider == name && Readable(decrypt, old(rows)[id]) then
          forall id :: id in order && old(rows)[id].provider == name && Readable(decrypt, old(rows)[id]) ==>
            resolution == Key(decrypt(old(rows)[id].ciphertext).key)
        else if variable in env && env[variable] != "" then resolution == Key(env[variable])
        else !resolution.Key?
      ensures !raised ==> forall p :: resolution == DropRaised(p) <==>
        && provider == Some(p) && Lookup(env, EnvName(p)).None?
        && (forall id :: id in order && old(rows)[id].provider == Alias(p) ==>
              !Readable(decrypt, old(rows)[id]))
        && (exists n :: DroppedAt(old(rows), BadRows(old(rows), decrypt, order), turns, n, p))
      ensures committed == if raised then old(committed) else
        var bad := BadRows(old(rows), decrypt, order); OthersAfter(old(committed), bad, turns, |bad|)
      ensures rows == if raised then old(rows) else
        var bad := BadRows(old(rows), decrypt, order); TableAfter(old(rows), bad, turns, |bad|)
    {
      var result := GetWithDropped(decrypt, order, turns);
      if result.Raised? {
        return true, NoKey;
      }
      raised := false;
      resolution := Resolve(provider, result.keys, result.dropped, env);
      ghost var bad := BadRows(old(rows), decrypt, order);
      forall p
        ensures p in result.dropped <==> exists n :: DroppedAt(old(rows), bad, turns, n, p)
        ensures Lookup(result.keys, p).Some? <==>
          exists id :: id in order && old(rows)[id].provider == p && Readable(decrypt, old(rows)[id])
      {
        DroppedByName(old(rows), bad, turns, result.dropped, p);
      }
    }

    /** The end of a request: teardown rolls back what its handler did not commit. */
    method EndRequest(commits: bool)
      modifies this
      ensures committed == if commits then old(rows) else old(committed)
      ensures rows == committed
    {
      if commits {
        committed := rows;
      } else {
        rows := committed;
      }
    }

    /**
     The run routes of agents: a reported drop is answered with 400 and no commit. Every dead row
     the request deleted is there again afterwards, unless the request went on and committed.
     */
    method RunRequest(decrypt: string -> Decrypted, order: seq<nat>, turns: nat -> Turn,
                      provider: Option<string>, env: map<string, string>, commits: bool)
      returns (raised: bool, resolution: Resolution)
      requires UniqueProviders(rows) && IsQueryResult(rows, order) && rows == committed
      modifies this
      ensures rows == committed
      ensures raised ==> committed == old(committed)
      ensures !raised ==>
        var bad := BadRows(old(rows), decrypt, order);
        var lasts := commits && !resolution.DropRaised?;
        && committed == AfterRequest(old(committed), bad, turns, lasts)
        && (forall n :: 0 <= n < |bad| && Matched(old(committed), bad, turns, n) && Locked(bad, turns, n) ==>
              && (bad[n].id !in committed <==> lasts)
              && (!lasts ==> decrypt(committed[bad[n].id].ciphertext).InvalidToken?))
    {
      raised, resolution := ResolveForModel(decrypt, order, turns, provider, env);
      EndRequest(commits && !raised && !resolution.DropRaised?);
      if !raised {
        ghost var bad := BadRows(old(rows), decrypt, order);
        ghost var lasts := commits && !resolution.DropRaised?;
        forall n | 0 <= n < |bad| && Matched(old(committed), bad, turns, n) && Locked(bad, turns, n)
          ensures bad[n].id !in committed <==> lasts
          ensures !lasts ==> decrypt(committed[bad[n].id].ciphertext).InvalidToken?
        {
          HealedRowGoneExactly(old(committed), decrypt, order, turns, n, lasts);
        }
      }
    }
  }

  // ---- what a heal leaves behind ------------------------------------------------------

  function AfterRequest(table: Table, bad: seq<BadRow>, turns: nat -> Turn, commits: bool): Table {
    if commits then TableAfter(table, bad, turns, |bad|) else OthersAfter(table, bad, turns, |bad|)
  }

  /** The DELETE of `bad[n]` removes its row. */
  predicate Matched(table: Table, bad: seq<BadRow>, turns: nat -> Turn, n: nat)
    requires n < |bad|
  {
    !turns(bad[n].id).fails && StillBad(TableAt(table, bad, turns, n), bad[n].id, bad[n].row.ciphertext)
  }

  /** Nobody else writes a row between its DELETE and the end of the transaction: the DELETE locks it. */
  predicate Locked(bad: seq<BadRow>, turns: nat -> Turn, n: nat)
    requires n < |bad|
  {
    forall m :: n < m < |bad| ==>
      bad[n].id !in turns(bad[m].id).removed && bad[n].id !in turns(bad[m].id).written
  }

  predicate SameRow(one: Table, other: Table, id: nat) {
    (id in one <==> id in other) && (id in one && id in other ==> one[id] == other[id])
  }

  lemma {:induction false} NotDeletedYet(table: Table, bad: seq<BadRow>, turns: nat -> Turn, n: nat, id: nat)
    requires n <= |bad| && forall m :: 0 <= m < n ==> bad[m].id != id
    ensures SameRow(TableAfter(table, bad, turns, n), OthersAfter(table, bad, turns, n), id)
  {
    if n > 0 { NotDeletedYet(table, bad, turns, n - 1, id); }
  }

  /** Of row `id` the request's transaction sees nothing, all others this row. */
  predicate GoneHere(table: Table, bad: seq<BadRow>, turns: nat -> Turn, m: nat, id: nat, row: KeyRow)
    requires m <= |bad|
  {
    && id !in TableAfter(table, bad, turns, m)
    && id in OthersAfter(table, bad, turns, m) && OthersAfter(table, bad, turns, m)[id] == row
  }

  lemma StillGone(table: Table, bad: seq<BadRow>, turns: nat -> Turn, m: nat, id: nat, row: KeyRow)
    requires m < |bad| && id !in turns(bad[m].id).removed && id !in turns(bad[m].id).written
    requires GoneHere(table, bad, turns, m, id, row)
    ensures GoneHere(table, bad, turns, m + 1, id, row)
  {
  }

  lemma {:induction false} StaysGone(table: Table, bad: seq<BadRow>, turns: nat -> Turn, n: nat, m: nat, row: KeyRow)
    requires n < m <= |bad| && Locked(bad, turns, n) && GoneHere(table, bad, turns, n + 1, bad[n].id, row)
    ensures GoneHere(table, bad, turns, m, bad[n].id, row)
  {
    if m > n + 1 {
      var last := m - 1;
      StaysGone(table, bad, turns, n, last, row);
      assert GoneHere(table, bad, turns, m, bad[n].id, row) by { StillGone(table, bad, turns, last, bad[n].id, row); }
    }
  }

  lemma BadRowsOnce(table: Table, decrypt: string -> Decrypted, order: seq<nat>, j: nat, k: nat)
    requires UniqueProviders(table) && IsQueryResult(table, order)
    requires j < k < |BadRows(table, decrypt, order)|
    ensures BadRows(table, decrypt, order)[j].id != BadRows(table, decrypt, order)[k].id
  {
    var bad := BadRows(table, decrypt, order);
    BadRowsDistinct(table, decrypt, order);
    assert bad[j] in bad && bad[k] in bad;
    BadRowsExact(table, decrypt, order, bad[j]);
    BadRowsExact(table, decrypt, order, bad[k]);
    assert Providers(bad)[j] != Providers(bad)[k];
  }

  /**
   A dead row whose DELETE matched is gone for the next request exactly if this one commits; if
   it does not, the row is there again with the ciphertext that cannot be decrypted.
   */
  lemma HealedRowGoneExactly(table: Table, decrypt: string -> Decrypted, order: seq<nat>,
                             turns: nat -> Turn, n: nat, commits: bool)
    requires UniqueProviders(table) && IsQueryResult(table, order)
    requires n < |BadRows(table, decrypt, order)|
    requires
      Matched(table, BadRows(table, decrypt, order), turns, n) && Locked(BadRows(table, decrypt, order), turns, n)
    ensures
      var bad := BadRows(table, decrypt, order);
      var after := AfterRequest(table, bad, turns, commits);
      && (bad[n].id !in after <==> commits)
      && (!commits ==> decrypt(after[bad[n].id].ciphertext).InvalidToken?)
  {
    var bad := BadRows(table, decrypt, order);
    forall j, k | 0 <= j < k < |bad| ensures bad[j].id != bad[k].id {
      BadRowsOnce(table, decrypt, order, j, k);
    }
    NotDeletedYet(table, bad, turns, n, bad[n].id);
    assert bad[n] in bad;
    BadRowsExact(table, decrypt, order, bad[n]);
    var row := TableAt(table, bad, turns, n)[bad[n].id];
    StaysGone(table, bad, turns, n, |bad|, row);
  }

  /** A provider with a readable row has no unreadable one. */
  lemma KeptIsNotBad(table: Table, decrypt: string -> Decrypted, order: seq<nat>, p: string)
    requires UniqueProviders(table) && IsQueryResult(table, order)
    requires exists id :: id in order && table[id].provider == p && decrypt(table[id].ciphertext).Plain?
    ensures p !in Providers(BadRows(table, decrypt, order))
  {
    var bad := BadRows(table, decrypt, order);
    if p in Providers(bad) {
      var k :| 0 <= k < |bad| && Providers(bad)[k] == p;
      assert bad[k] in bad;
      BadRowsExact(table, decrypt, order, bad[k]);
    }
  }

  predicate Distinct(items: seq<string>) {
    forall j, k :: 0 <= j < k < |items| ==> items[j] != items[k]
  }

  /** `dropped.remove(provider)` */
  function RemoveFirst(items: seq<string>, x: string): seq<string> {
    if items == [] then []
    else if items[0] == x then items[1..]
    else [items[0]] + RemoveFirst(items[1..], x)
  }

  lemma {:induction false} RemoveFirstDistinct(items: seq<string>, x: string)
    requires Distinct(items)
    ensures Distinct(RemoveFirst(items, x))
    ensures forall y :: y in RemoveFirst(items, x) <==> y in items && y != x
  {
    if items != [] {
      var rest := items[1..];
      assert items == [items[0]] + rest;
      assert forall y :: y in items <==> y == items[0] || y in rest;
      if items[0] == x {
        assert x !in rest;
      } else {
        RemoveFirstDistinct(rest, x);
        assert items[0] !in rest;
        var removed := RemoveFirst(rest, x);
        assert forall k :: 0 <= k < |removed| ==> removed[k] in removed;
      }
    }
  }

  /** Whatever others do, a DELETE removes only a row that still holds the ciphertext that could not be decrypted. */
  lemma OnlyDeadRowsDeleted(table: Table, decrypt: string -> Decrypted, order: seq<nat>,
                            turns: nat -> Turn, n: nat, id: nat)
    requires IsQueryResult(table, order) && n < |BadRows(table, decrypt, order)|
    requires
      var bad := BadRows(table, decrypt, order);
      id in TableAt(table, bad, turns, n) && id !in TableAfter(table, bad, turns, n + 1)
    ensures
      var bad := BadRows(table, decrypt, order);
      && id == bad[n].id && !turns(id).fails && Reported(table, bad, turns, n)
      && id in TableAt(table, bad, turns, n)
      && decrypt(TableAt(table, bad, turns, n)[id].ciphertext).InvalidToken?
  {
    var bad := BadRows(table, decrypt, order);
    assert bad[n] in bad;
    BadRowsExact(table, decrypt, order, bad[n]);
  }

  /**
   A DELETE also matches nothing when another heal has already removed the row: then the
   provider is not reported although its slot is empty.
   */
  lemma ConcurrentHealUnreports(table: Table, bad: seq<BadRow>, turns: nat -> Turn, n: nat)
    requires n < |bad| && !turns(bad[n].id).fails
    requires bad[n].id in turns(bad[n].id).removed && bad[n].id !in turns(bad[n].id).written
    ensures !Reported(table, bad, turns, n)
    ensures bad[n].id !in TableAfter(table, bad, turns, n + 1)
  {
  }

  // ---- resolution ---------------------------------------------------------------------

  const PROVIDER_ENV := map[
    "openai" := "OPENAI_API_KEY",
    "anthropic" := "ANTHROPIC_API_KEY",
    "google" := "GOOGLE_API_KEY",
    "gemini" := "GEMINI_API_KEY",
    "openrouter" := "OPENROUTER_API_KEY"
  ]

  /** The name a provider's row is stored under. */
  function Alias(provider: string): string {
    if provider == "gemini" || provider == "vertex_ai" then "google" else provider
  }

  /** `d.get(k)`, with "" as good as missing. */
  function Lookup(d: map<string, string>, k: string): Option<string> {
    if k in d && d[k] != "" then Some(d[k]) else None
  }

  function EnvName(provider: string): string {
    if provider in PROVIDER_ENV then PROVIDER_ENV[provider] else ""
  }

  /** Where the row and the variable of a provider are looked up; os.environ has no variable named "". */
  lemma NamesOf(provider: string)
    ensures Alias("gemini") == Alias("vertex_ai") == "google"
    ensures provider !in {"gemini", "vertex_ai"} ==> Alias(provider) == provider
    ensures EnvName("openai") == "OPENAI_API_KEY" && EnvName("anthropic") == "ANTHROPIC_API_KEY"
    ensures EnvName("google") == "GOOGLE_API_KEY" && EnvName("gemini") == "GEMINI_API_KEY"
    ensures EnvName("openrouter") == "OPENROUTER_API_KEY"
    ensures provider !in {"openai", "anthropic", "google", "gemini", "openrouter"} ==> EnvName(provider) == ""
  {
  }

  /** `resolve_api_key_for_model`; `provider` is None when litellm does not know the model. */
  function ResolveKey(provider: Option<string>, keys: map<string, string>, env: map<string, string>): Option<string> {
    if provider.None? then None
    else if Lookup(keys, Alias(provider.value)).Some? then Lookup(keys, Alias(provider.value))
    else Lookup(env, EnvName(provider.value))
  }

  datatype Resolution = Key(key: string) | NoKey | DropRaised(provider: string)

  /** `resolve_api_key_or_raise_for_drop_using` */
  function Resolve(provider: Option<string>, keys: map<string, string>, dropped: seq<string>,
                   env: map<string, string>): Resolution {
    var key := ResolveKey(provider, keys, env);
    if key.Some? then Key(key.value)
    else if dropped != [] && provider.Some? && provider.value in dropped then DropRaised(provider.value)
    else NoKey
  }

  /**
   When the row a model's provider is stored under was dropped, and nothing else has a key,
   the user is told exactly if the provider is not stored under an alias: a dropped "google"
   row is silent for "gemini" and "vertex_ai" models.
   */
  lemma AliasedDropIsSilent(p: string, keys: map<string, string>, dropped: seq<string>, env: map<string, string>)
    requires Alias(p) in dropped && (forall q :: q in keys ==> q !in dropped) && Lookup(env, EnvName(p)).None?
    requires p != Alias(p) ==> p !in dropped
    ensures Resolve(Some(p), keys, dropped, env) == if Alias(p) == p then DropRaised(p) else NoKey
    ensures Alias(p) == p <==> p != "gemini" && p != "vertex_ai"
  {
  }
}
