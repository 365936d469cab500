// Trajectory keys `{uid}_{session}_{index}` and the choice of each session's final output (main_ppo_sync.py).
module SessionKeys {
  import opened Common

  // ---------- Decimal numbers ----------

  function Digit(d: nat): char
    requires d < 10
  {
    '0' + d as char
  }

  function Decimal(n: nat): (s: string)
    ensures s != [] && forall c <- s :: '0' <= c <= '9'
  {
    (if n < 10 then [] else Decimal(n / 10)) + [Digit(n % 10)]
  }

  /** The value of the digits before `c`, None if there are none or they are not digits, continued by `c`. */
  function ParseStep(front: string, value: Option<nat>, c: char): Option<nat> {
    if !('0' <= c <= '9') then None
    else if front == [] then Some((c - '0') as nat)
    else match value case None => None case Some(n) => Some(10 * n + (c - '0') as nat)
  }

  /** `int` of a string of decimal digits. */
  function ParseInt(s: string): Option<nat> {
    if s == [] then None
    else
      var (front, c) := (s[..|s| - 1], s[|s| - 1]);
      ParseStep(front, ParseInt(front), c)
  }

  lemma DigitValue(d: nat)
    requires d < 10
    ensures '0' <= Digit(d) <= '9' && (Digit(d) - '0') as nat == d
  {
  }

  lemma ParseSnoc(front: string, c: char)
    ensures ParseInt(front + [c]) == ParseStep(front, ParseInt(front), c)
  {
    hide ParseStep;
    var all := front + [c];
    assert all[..|all| - 1] == front && all[|all| - 1] == c;
  }

  lemma {:induction false} ParseDecimal(n: nat)
    ensures ParseInt(Decimal(n)) == Some(n)
  {
    hide Digit, ParseInt;
    DigitValue(n % 10);
    ParseSnoc(if n < 10 then [] else Decimal(n / 10), Digit(n % 10));
    if n >= 10 { ParseDecimal(n / 10); }
  }

  function Power(e: nat): nat {
    if e == 0 then 1 else 10 * Power(e - 1)
  }

  predicate AllDigits(s: string) {
    forall k :: 0 <= k < |s| ==> '0' <= s[k] <= '9'
  }

  /** Every digit counts by the power of ten of its place. */
  function Value(s: string): nat
    requires AllDigits(s)
  {
    if s == [] then 0 else (s[0] - '0') as nat * Power(|s| - 1) + Value(s[1..])
  }

  lemma {:induction false} ValueSnoc(front: string, c: char)
    requires AllDigits(front) && '0' <= c <= '9'
    ensures AllDigits(front + [c]) && Value(front + [c]) == 10 * Value(front) + (c - '0') as nat
  {
    if front == [] {
      assert front + [c] == [c] && [c][1..] == [] && Power(0) == 1;
    } else {
      var d := (front[0] - '0') as nat;
      assert (front + [c])[1..] == front[1..] + [c];
      ValueSnoc(front[1..], c);
      assert d * (10 * Power(|front| - 1)) == 10 * (d * Power(|front| - 1));
    }
  }

  /** What a string of digits is read as: its value to the base of ten. */
  lemma {:induction false} ParseIntIff(s: string, n: nat)
    ensures ParseInt(s) == Some(n) <==> s != [] && AllDigits(s) && Value(s) == n
    decreases |s|
  {
    hide Value;
    if s != [] {
      var (front, c) := (s[..|s| - 1], s[|s| - 1]);
      assert s == front + [c] && (AllDigits(s) ==> AllDigits(front));
      if AllDigits(s) {
        ValueSnoc(front, c);
        ParseIntIff(front, Value(front));
        EmptyValue();
      } else if '0' <= c <= '9' && front != [] && ParseInt(front).Some? {
        ParseIntIff(front, ParseInt(front).value);
      }
    }
  }

  lemma EmptyValue()
    ensures Value([]) == 0
  {
  }

  /** The numeral of a number has its value, and no leading zeros. */
  lemma {:induction false} DecimalValue(n: nat)
    ensures AllDigits(Decimal(n)) && Value(Decimal(n)) == n
    ensures n > 0 ==> Decimal(n)[0] != '0'
    ensures n == 0 ==> |Decimal(n)| == 1
  {
    ParseDecimal(n);
    ParseIntIff(Decimal(n), n);
    if n >= 10 { DecimalValue(n / 10); }
  }

  // ---------- Keys ----------

  /** The position of the last underscore, or |s| if there is none. */
  function LastUnderscore(s: string): (i: nat)
    ensures i <= |s| && '_' !in s[(if i < |s| then i + 1 else 0)..]
    ensures i < |s| ==> s[i] == '_'
  {
    if s == [] then 0 else
    var n := |s| - 1;
    if s[n] == '_' then n else
    var i := LastUnderscore(s[..n]);
    assert s == s[..n] + [s[n]];
    if i < n then i else |s|
  }

  /** `rsplit("_", 2)`. */
  function Rsplit2(s: string): seq<string> {
    var i := LastUnderscore(s);
    if i == |s| then [s] else
    var k := LastUnderscore(s[..i]);
    if k == i then [s[..i], s[i + 1..]] else [s[..k], s[k + 1..i], s[i + 1..]]
  }

  function Format(uid: string, session: nat, index: nat): string {
    uid + "_" + Decimal(session) + "_" + Decimal(index)
  }

  lemma {:induction false} LastUnderscoreIs(a: string, b: string)
    requires '_' !in b
    ensures LastUnderscore(a + "_" + b) == |a|
    decreases |b|
  {
    var s := a + "_" + b;
    if b != [] {
      var (front, n) := (b[..|b| - 1], |s| - 1);
      assert s[..n] == a + "_" + front && s[n] == b[|b| - 1];
      assert '_' !in front && s[n] in b;
      LastUnderscoreIs(a, front);
    }
  }

  lemma RsplitJoin(a: string, b: string, c: string)
    requires '_' !in b && '_' !in c
    ensures Rsplit2(a + "_" + b + "_" + c) == [a, b, c]
  {
    hide LastUnderscore;
    var ab := a + "_" + b;
    LastUnderscoreIs(ab, c);
    LastUnderscoreIs(a, b);
    var s := ab + "_" + c;
    assert s[..|ab|] == ab && s[|ab| + 1..] == c;
    assert ab[..|a|] == a && s[..|a|] == a && s[|a| + 1..|ab|] == b;
  }

  /** Splitting from the right undoes the formatting, whatever underscores the uid contains. */
  lemma RsplitFormat(uid: string, session: nat, index: nat)
    ensures Rsplit2(Format(uid, session, index)) == [uid, Decimal(session), Decimal(index)]
  {
    hide Rsplit2;
    RsplitJoin(uid, Decimal(session), Decimal(index));
  }

  /** Distinct outputs have distinct keys. */
  lemma FormatInjective(uid: string, session: nat, index: nat, uid': string, session': nat, index': nat)
    requires Format(uid, session, index) == Format(uid', session', index')
    ensures uid == uid' && session == session' && index == index'
  {
    RsplitFormat(uid, session, index);
    RsplitFormat(uid', session', index');
    ParseDecimal(session);
    ParseDecimal(session');
    ParseDecimal(index);
    ParseDecimal(index');
  }

  // ---------- Rows ----------

  datatype Row = Row(session: string, index: nat)

  /** What the selection reads from a key: None if the key has too few fields or the last one is no number. */
  function RowOf(key: string): Option<Row> {
    var fields := Rsplit2(key);
    if |fields| != 3 then None
    else match ParseInt(fields[2]) case None => None case Some(n) => Some(Row(fields[0] + "_" + fields[1], n))
  }

  /** Parsing a formatted key gives back the session's key and the index. */
  lemma RowOfFormat(uid: string, session: nat, index: nat)
    ensures RowOf(Format(uid, session, index)) == Some(Row(uid + "_" + Decimal(session), index))
  {
    RsplitFormat(uid, session, index);
    ParseDecimal(index);
  }

  /** Row i is the first one with the largest index among the first n rows of its session. */
  ghost predicate IsFinal(rows: seq<Row>, n: nat, i: nat)
    requires n <= |rows|
  {
    && i < n
    && forall k :: 0 <= k < n && rows[k].session == rows[i].session ==>
         rows[k].index <= rows[i].index && (k < i ==> rows[k].index < rows[i].index)
  }

  lemma FinalUnique(rows: seq<Row>, n: nat, i: nat, k: nat)
    requires n <= |rows| && IsFinal(rows, n, i) && IsFinal(rows, n, k) && rows[i].session == rows[k].session
    ensures i == k
  {
  }

  /** `finals` has the final row of every session once; `local[i]` points to that of row i's session. */
  ghost predicate IsSelection(rows: seq<Row>, finals: seq<nat>, local: seq<nat>) {
    && (forall k :: 0 <= k < |finals| ==> IsFinal(rows, |rows|, finals[k]))
    && (forall k, l :: 0 <= k < l < |finals| ==> rows[finals[k]].session != rows[finals[l]].session)
    && |local| == |rows|
    && forall i :: 0 <= i < |rows| ==> local[i] < |finals| && rows[finals[local[i]]].session == rows[i].session
  }

  /** The final outputs of a dictionary of sessions after n rows: `best[s]` is (index, row). */
  ghost predicate BestInv(rows: seq<Row>, n: nat, order: seq<string>, best: map<string, (nat, nat)>) {
    && n <= |rows|
    && (forall s :: s in best <==> s in order)
    && (forall k, l :: 0 <= k < l < |order| ==> order[k] != order[l])
    && (forall i :: 0 <= i < n ==> rows[i].session in best)
    && (forall s :: s in best ==> best[s].1 < n && rows[best[s].1] == Row(s, best[s].0) && IsFinal(rows, n, best[s].1))
  }

  lemma BestStep(rows: seq<Row>, n: nat, order: seq<string>, best: map<string, (nat, nat)>)
    requires BestInv(rows, n, order, best) && n < |rows|
    ensures var (s, index) := (rows[n].session, rows[n].index);
      var order' := if s in best then order else order + [s];
      BestInv(rows, n + 1, order', if s !in best || best[s].0 < index then best[s := (index, n)] else best)
  {
    hide IsFinal;
    var s := rows[n].session;
    forall t | t in best && (t != s || best[s].0 >= rows[n].index) ensures IsFinal(rows, n + 1, best[t].1) {
      FinalStays(rows, n, best[t].1);
    }
    if s !in best || best[s].0 < rows[n].index {
      if s in best { FinalReplaced(rows, n, best[s].1); } else { FinalNew(rows, n); }
    }
  }

  lemma FinalStays(rows: seq<Row>, n: nat, i: nat)
    requires n < |rows| && IsFinal(rows, n, i) && (rows[n].session != rows[i].session || rows[n].index <= rows[i].index)
    ensures IsFinal(rows, n + 1, i)
  {
  }

  lemma FinalReplaced(rows: seq<Row>, n: nat, i: nat)
    requires n < |rows| && IsFinal(rows, n, i) && rows[n].session == rows[i].session && rows[n].index > rows[i].index
    ensures IsFinal(rows, n + 1, n)
  {
  }

  lemma FinalNew(rows: seq<Row>, n: nat)
    requires n < |rows| && forall i :: 0 <= i < n ==> rows[i].session != rows[n].session
    ensures IsFinal(rows, n + 1, n)
  {
  }

  predicate AllParse(keys: seq<string>) {
    forall i :: 0 <= i < |keys| ==> RowOf(keys[i]).Some?
  }

  function RowsOf(keys: seq<string>): seq<Row>
    requires AllParse(keys)
  {
    seq(|keys|, i requires 0 <= i < |keys| => RowOf(keys[i]).value)
  }

  /** The pass over the keys that the training step and the validation share. */
  method CollectBest(keys: seq<string>) returns (ok: bool, rows: seq<Row>, order: seq<string>, best: map<string, (nat, nat)>)
    ensures ok <==> AllParse(keys)
    ensures ok ==> |rows| == |keys| && rows == RowsOf(keys) && BestInv(rows, |keys|, order, best)
  {
    hide RowOf, IsFinal, BestInv;
    rows, order, best := [], [], map[];
    assert BestInv([], 0, [], map[]) by { NothingBest(); }
    for i := 0 to |keys|
      invariant AllParse(keys[..i]) && rows == RowsOf(keys[..i]) && BestInv(rows, i, order, best)
    {
      assert keys[..i + 1] == keys[..i] + [keys[i]];
      var row := RowOf(keys[i]);
      if row.None? {
        return false, rows, order, best;
      }
      var (session, index) := (row.value.session, row.value.index);
      BestPrefix(rows, row.value, order, best);
      rows := rows + [row.value];
      BestStep(rows, i, order, best);
      if session !in best {
        order := order + [session];
        best := best[session := (index, i)];
      } else if best[session].0 < index {
        best := best[session := (index, i)];
      }
    }
    assert keys[..|keys|] == keys;
    ok := true;
  }

  lemma NothingBest()
    ensures BestInv([], 0, [], map[])
  {
  }

  lemma BestPrefix(rows: seq<Row>, row: Row, order: seq<string>, best: map<string, (nat, nat)>)
    requires BestInv(rows, |rows|, order, best)
    ensures BestInv(rows + [row], |rows|, order, best)
  {
    forall s | s in best ensures IsFinal(rows + [row], |rows|, best[s].1) {
      assert IsFinal(rows, |rows|, best[s].1);
    }
  }

  method ListFinals(order: seq<string>, best: map<string, (nat, nat)>) returns (finals: seq<nat>, place: map<string, nat>)
    requires forall s <- order :: s in best
    ensures |finals| == |order| && forall k :: 0 <= k < |order| ==> finals[k] == best[order[k]].1
    ensures forall s :: s in place <==> s in order
    ensures forall s :: s in place ==> place[s] < |order| && order[place[s]] == s
  {
    finals, place := [], map[];
    for k := 0 to |order|
      invariant |finals| == k && forall l :: 0 <= l < k ==> finals[l] == best[order[l]].1
      invariant forall s :: s in place <==> s in order[..k]
      invariant forall s :: s in place ==> place[s] < k && order[place[s]] == s
    {
      assert order[..k + 1] == order[..k] + [order[k]] && order[k] in best;
      finals := finals + [best[order[k]].1];
      place := place[order[k] := k];
    }
    assert order[..|order|] == order;
  }

  /** The selection before the advantage computation: one final row per session, and for every row the place of its
      session's final row. */
  method SelectFinals(keys: seq<string>) returns (r: Result<(seq<nat>, seq<nat>)>)
    ensures r.Ok? <==> AllParse(keys)
    ensures r.Ok? ==> IsSelection(RowsOf(keys), r.value.0, r.value.1)
  {
    hide RowsOf, AllParse, IsFinal;
    var ok, rows, order, best := CollectBest(keys);
    if !ok {
      return Err;
    }
    var finals, place := ListFinals(order, best);
    var local: seq<nat> := [];
    for i := 0 to |rows|
      invariant |local| == i
      invariant forall k :: 0 <= k < i ==> rows[k].session in place && local[k] == place[rows[k].session]
    {
      local := local + [place[rows[i].session]];
    }
    return Ok((finals, local));
  }

  /** Every row is given the score of the final output of its own session, and a final row its own. */
  lemma RowsShareFinal(rows: seq<Row>, finals: seq<nat>, local: seq<nat>, i: nat)
    requires IsSelection(rows, finals, local) && i < |rows|
    ensures var f := finals[local[i]]; IsFinal(rows, |rows|, f) && rows[f].session == rows[i].session
    ensures i == finals[local[i]] <==> IsFinal(rows, |rows|, i)
    ensures forall k :: 0 <= k < |rows| ==> (local[k] == local[i] <==> rows[k].session == rows[i].session)
  {
    var f := finals[local[i]];
    assert IsFinal(rows, |rows|, f);
    if IsFinal(rows, |rows|, i) { FinalUnique(rows, |rows|, i, f); }
    forall k | 0 <= k < |rows| ensures local[k] == local[i] <==> rows[k].session == rows[i].session {
      assert rows[finals[local[k]]].session == rows[k].session;
    }
  }

  predicate IsAscending(s: seq<nat>) {
    forall k, l :: 0 <= k < l < |s| ==> s[k] < s[l]
  }

  /** What the validation reads from a key: one with fewer than three fields is a session of its own, and resets it. */
  datatype Entry = Entry(row: Row, resets: bool)

  function EntryOf(key: string): (e: Option<Entry>)
    ensures e.Some? && e.value.resets ==> e.value.row.index == 0
  {
    if |Rsplit2(key)| != 3 then Some(Entry(Row(key, 0), true))
    else match RowOf(key) case None => None case Some(row) => Some(Entry(row, false))
  }

  /** The validation only refuses a key whose last of three fields is no number. */
  predicate Readable(key: string) {
    EntryOf(key).Some?
  }

  predicate AllReadable(keys: seq<string>) {
    forall i :: 0 <= i < |keys| ==> Readable(keys[i])
  }

  function EntriesOf(keys: seq<string>): (es: seq<Entry>)
    requires AllReadable(keys)
    ensures |es| == |keys|
  {
    seq(|keys|, i requires 0 <= i < |keys| => assert Readable(keys[i]); EntryOf(keys[i]).value)
  }

  /** A later entry of the session has reset it. */
  ghost predicate Superseded(es: seq<Entry>, n: nat, k: nat)
    requires k < n <= |es|
  {
    exists l: nat :: k < l < n && es[l].resets && es[l].row.session == es[k].row.session
  }

  /** Entry i is the first one with the largest index among the first n entries of its session since its last reset. */
  ghost predicate IsKept(es: seq<Entry>, n: nat, i: nat)
    requires n <= |es|
  {
    && i < n && !Superseded(es, n, i)
    && forall k: nat :: k < n && es[k].row.session == es[i].row.session && !Superseded(es, n, k) ==>
         es[k].row.index <= es[i].row.index && (k < i ==> es[k].row.index < es[i].row.index)
  }

  /** `best[s]` is (index, position) of the entry that session s keeps. */
  ghost predicate KeptInv(es: seq<Entry>, n: nat, best: map<string, (nat, nat)>) {
    && n <= |es|
    && (forall i: nat :: i < n ==> es[i].row.session in best)
    && forall s :: s in best ==> best[s].1 < n && es[best[s].1].row == Row(s, best[s].0) && IsKept(es, n, best[s].1)
  }

  function Kept(best: map<string, (nat, nat)>, e: Entry, n: nat): map<string, (nat, nat)> {
    if e.resets || e.row.session !in best || e.row.index > best[e.row.session].0
    then best[e.row.session := (e.row.index, n)] else best
  }

  /** One more entry supersedes exactly the earlier entries of a session that it resets. */
  lemma SupersededMore(es: seq<Entry>, n: nat, k: nat)
    requires k < n < |es|
    ensures Superseded(es, n + 1, k) <==>
      Superseded(es, n, k) || (es[n].resets && es[n].row.session == es[k].row.session)
  {
    if Superseded(es, n, k) {
      var l: nat :| k < l < n && es[l].resets && es[l].row.session == es[k].row.session;
      assert k < l < n + 1;
    }
  }

  lemma KeptStays(es: seq<Entry>, n: nat, i: nat)
    requires n < |es| && IsKept(es, n, i)
    requires es[n].row.session == es[i].row.session ==> !es[n].resets && es[n].row.index <= es[i].row.index
    ensures IsKept(es, n + 1, i)
  {
    hide Superseded;
    forall k: nat | k < n ensures Superseded(es, n + 1, k) <==>
      Superseded(es, n, k) || (es[n].resets && es[n].row.session == es[k].row.session) { SupersededMore(es, n, k); }
  }

  lemma KeptNew(es: seq<Entry>, n: nat, best: map<string, (nat, nat)>)
    requires KeptInv(es, n, best) && n < |es|
    requires var (e, s) := (es[n], es[n].row.session); e.resets || s !in best || e.row.index > best[s].0
    ensures IsKept(es, n + 1, n)
  {
    forall k: nat | k < n ensures Superseded(es, n + 1, k) <==>
      Superseded(es, n, k) || (es[n].resets && es[n].row.session == es[k].row.session) { SupersededMore(es, n, k); }
  }

  lemma KeptStep(es: seq<Entry>, n: nat, best: map<string, (nat, nat)>)
    requires KeptInv(es, n, best) && n < |es|
    ensures KeptInv(es, n + 1, Kept(best, es[n], n))
  {
    var (s, best') := (es[n].row.session, Kept(best, es[n], n));
    forall t | t in best' ensures IsKept(es, n + 1, best'[t].1) {
      if t in best && best'[t] == best[t] { KeptStays(es, n, best[t].1); } else { KeptNew(es, n, best); }
    }
    hide IsKept;
  }

  lemma {:induction false} KeptUnique(es: seq<Entry>, n: nat, i: nat, k: nat)
    requires n <= |es| && IsKept(es, n, i) && IsKept(es, n, k) && es[i].row.session == es[k].row.session
    ensures i == k
  {
  }

  lemma KeptPositions(es: seq<Entry>, best: map<string, (nat, nat)>, sessions: seq<string>, finals: seq<nat>)
    requires KeptInv(es, |es|, best) && |sessions| == |es|
    requires forall i :: 0 <= i < |es| ==> sessions[i] == es[i].row.session
    requires forall i: nat :: i in finals <==> i < |sessions| && best[sessions[i]].1 == i
    ensures forall i: nat :: i in finals <==> IsKept(es, |es|, i)
  {
    forall i: nat ensures i in finals <==> IsKept(es, |es|, i) {
      if i < |es| && IsKept(es, |es|, i) { KeptUnique(es, |es|, i, best[sessions[i]].1); }
    }
  }

  /** Keys of the format that is written have three fields, and then nothing is reset. */
  lemma KeptIsFinal(keys: seq<string>, i: nat)
    requires AllParse(keys)
    ensures AllReadable(keys)
    ensures IsKept(EntriesOf(keys), |keys|, i) <==> IsFinal(RowsOf(keys), |keys|, i)
  {
    hide Rsplit2, ParseInt;
    var (es, rows) := (EntriesOf(keys), RowsOf(keys));
    forall k: nat | k < |keys| ensures Readable(keys[k]) && es[k] == Entry(rows[k], false) { assert RowOf(keys[k]).Some?; }
    assert forall k: nat :: k < |keys| ==> !Superseded(es, |keys|, k);
  }

  /** What the validation keeps: its positions sorted, that is, the kept entries from first to last. */
  method ValidationFinals(keys: seq<string>) returns (r: Result<seq<nat>>)
    ensures r.Ok? <==> AllReadable(keys)
    ensures r.Ok? ==> IsAscending(r.value) && forall i: nat :: i in r.value <==> IsKept(EntriesOf(keys), |keys|, i)
    ensures r.Ok? && AllParse(keys) ==> forall i: nat :: i in r.value <==> IsFinal(RowsOf(keys), |keys|, i)
  {
    hide IsKept, IsFinal, EntryOf, KeptInv, AllParse;
    var sessions: seq<string> := [];
    var best: map<string, (nat, nat)> := map[];
    assert KeptInv([], 0, best) by { NothingKept(); }
    for i := 0 to |keys|
      invariant AllReadable(keys[..i])
      invariant |sessions| == i && KeptInv(EntriesOf(keys[..i]), i, best)
      invariant forall k :: 0 <= k < i ==> sessions[k] == EntriesOf(keys[..i])[k].row.session
    {
      var e := EntryOf(keys[i]);
      if e.None? {
        assert !Readable(keys[i]);
        return Err;
      }
      assert keys[..i + 1][..i] == keys[..i] && keys[..i + 1][i] == keys[i];
      assert EntriesOf(keys[..i + 1]) == EntriesOf(keys[..i]) + [e.value];
      KeptPrefix(EntriesOf(keys[..i]), e.value, best);
      KeptStep(EntriesOf(keys[..i + 1]), i, best);
      var row := e.value.row;
      sessions := sessions + [row.session];
      if e.value.resets {
        best := best[row.session := (0, i)];
      } else if row.session !in best || row.index > best[row.session].0 {
        best := best[row.session := (row.index, i)];
      }
    }
    assert keys[..|keys|] == keys;
    AllKept(EntriesOf(keys), best, sessions);
    var finals := Positions(sessions, best);
    KeptPositions(EntriesOf(keys), best, sessions, finals);
    if AllParse(keys) {
      forall i: nat ensures i in finals <==> IsFinal(RowsOf(keys), |keys|, i) { KeptIsFinal(keys, i); }
    }
    return Ok(finals);
  }

  lemma AllKept(es: seq<Entry>, best: map<string, (nat, nat)>, sessions: seq<string>)
    requires KeptInv(es, |es|, best) && |sessions| == |es|
    requires forall i :: 0 <= i < |es| ==> sessions[i] == es[i].row.session
    ensures forall s <- sessions :: s in best
  {
  }

  lemma NothingKept()
    ensures KeptInv([], 0, map[])
  {
  }

  lemma KeptPrefix(es: seq<Entry>, e: Entry, best: map<string, (nat, nat)>)
    requires KeptInv(es, |es|, best)
    ensures KeptInv(es + [e], |es|, best)
  {
    forall s | s in best ensures IsKept(es + [e], |es|, best[s].1) {
      forall k: nat | k < |es| ensures Superseded(es + [e], |es|, k) <==> Superseded(es, |es|, k) {
        if l: nat :| k < l < |es| && es[l].resets && es[l].row.session == es[k].row.session { assert (es + [e])[l] == es[l]; }
      }
    }
  }

  method Positions(sessions: seq<string>, best: map<string, (nat, nat)>) returns (finals: seq<nat>)
    requires forall s <- sessions :: s in best
    ensures IsAscending(finals) && forall i: nat :: i in finals <==> i < |sessions| && best[sessions[i]].1 == i
  {
    finals := [];
    for i := 0 to |sessions|
      invariant IsAscending(finals) && forall k: nat :: k in finals <==> k < i && best[sessions[k]].1 == k
    {
      assert forall k :: 0 <= k < |finals| ==> finals[k] in finals;
      if best[sessions[i]].1 == i {
        finals := finals + [i];
      }
    }
  }

  /** The training step and the validation select the same rows. */
  lemma SameFinals(rows: seq<Row>, finals: seq<nat>, local: seq<nat>, kept: seq<nat>)
    requires IsSelection(rows, finals, local)
    requires forall i: nat :: i in kept <==> IsFinal(rows, |rows|, i)
    ensures forall i: nat :: i in kept <==> i in finals
  {
    forall i: nat ensures i in kept <==> i in finals {
      if i in kept { RowsShareFinal(rows, finals, local, i); }
    }
  }
}
