/** Which published hook-call receipts a consumer accepts, stated on the JSON rows. */
module ReceiptRules {
  import opened Wrappers
  import opened Json
  import opened Text
  import opened ConsumerReceipt
  import RecurrenceRules

  predicate Digest(j: Json) { j.Str? && |j.s| == 64 && forall c :: c in j.s ==> c in "0123456789abcdefABCDEF" }

  /** A receipt with exactly its ten fields, each of its own kind. */
  predicate Allowed(j: Json) {
    && j.Dict?
    && j.entries.Keys == {"acceptance_required", "hook_id", "input_sha256", "invocation_index", "output_sha256",
         "return_contract_valid", "semantic_status", "signature_sha256", "status", "value_consumed_by_decision"}
    && var m := j.entries;
       && ((m["invocation_index"].Int? && m["invocation_index"].i >= 0) || m["invocation_index"].Bool?)
       && m["hook_id"].Str? && Strip(m["hook_id"].s) != ""
       && Digest(m["input_sha256"]) && Digest(m["output_sha256"]) && Digest(m["signature_sha256"])
       && (m["status"] == Str("completed") || m["status"] == Str("failed") || m["status"] == Str("unavailable"))
       && (m["semantic_status"] == Str("accepted") || m["semantic_status"] == Str("not_evaluated"))
       && m["return_contract_valid"].Bool? && m["acceptance_required"].Bool? && m["value_consumed_by_decision"].Bool?
  }

  /** The place it claims in the log; a truth value counts as a number. */
  function Place(j: Json): int
    requires Allowed(j)
  {
    if j.entries["invocation_index"].Int? then j.entries["invocation_index"].i
    else if j.entries["invocation_index"].b then 1 else 0
  }

  /** The receipts of a row as published. */
  function Receipts(row: Object): seq<Json> {
    if "hook_io_receipts" in row && row["hook_io_receipts"].List? then row["hook_io_receipts"].items else []
  }

  lemma DigestIff(j: Json)
    ensures Digest(j) <==> FullSha(j)
  {
    forall c: char ensures c in "0123456789abcdefABCDEF" <==> '0' <= c <= '9' || 'a' <= c <= 'f' || 'A' <= c <= 'F' { HexDigit(c); }
    if j.Str? {
      assert (forall c :: c in j.s ==> c in "0123456789abcdefABCDEF") <==> forall i :: 0 <= i < |j.s| ==> j.s[i] in "0123456789abcdefABCDEF";
    }
  }

  lemma HexDigit(c: char)
    ensures c in "0123456789abcdefABCDEF" <==> '0' <= c <= '9' || 'a' <= c <= 'f' || 'A' <= c <= 'F'
  {
    var low, high := "0123456789abcdef", "ABCDEF";
    assert "0123456789abcdefABCDEF" == low + high;
    RecurrenceRules.HexDigit(c);
    assert high[0] == 'A' && high[1] == 'B' && high[2] == 'C' && high[3] == 'D' && high[4] == 'E' && high[5] == 'F';
  }

  lemma AllowedIff(j: Json)
    ensures WellFormed(ReadReceipt(j)) <==> Allowed(j)
    ensures Allowed(j) ==> At(ReadReceipt(j)) == Place(j)
  {
    hide FullSha, Digest, Strip;
    forall x ensures Digest(x) <==> FullSha(x) { DigestIff(x); }
  }

  /** A receipt of a completed, valid and accepted call of the hook whose value was
      consumed. */
  predicate Proves(j: Json, h: string) {
    && Allowed(j) && j.entries["hook_id"] == Str(h) && j.entries["status"] == Str("completed")
    && j.entries["return_contract_valid"] == Bool(true) && j.entries["semantic_status"] == Str("accepted")
    && j.entries["value_consumed_by_decision"] == Bool(true)
  }

  lemma BacksIff(j: Json, h: string)
    ensures Backs(ReadReceipt(j), h) <==> Proves(j, h)
  {
    hide FullSha, Digest, Strip;
    forall x ensures Digest(x) <==> FullSha(x) { DigestIff(x); }
  }

  /** The receipts of a row pass exactly if there are some, each is allowed, and no two
      claim the same place. */
  lemma {:induction false} ReceiptsPassIff(row: Object)
    ensures ValidHookIo(HookIo(row)) <==>
      && Receipts(row) != [] && (forall i :: 0 <= i < |Receipts(row)| ==> Allowed(Receipts(row)[i]))
      && forall i, k :: 0 <= i < k < |Receipts(row)| ==> Place(Receipts(row)[i]) != Place(Receipts(row)[k])
  {
    hide WellFormed, Allowed, At, Place, ReadReceipt;
    forall j ensures (WellFormed(ReadReceipt(j)) <==> Allowed(j)) && (Allowed(j) ==> At(ReadReceipt(j)) == Place(j)) { AllowedIff(j); }
    assert |HookIo(row)| == |Receipts(row)|;
    assert forall i :: 0 <= i < |Receipts(row)| ==> HookIo(row)[i] == ReadReceipt(Receipts(row)[i]);
  }

  /** They back a hook exactly if one of them proves its consumption. */
  lemma {:induction false} HookBackedIff(row: Object, h: string)
    ensures h in BackedHooks(HookIo(row)) <==> exists i :: 0 <= i < |Receipts(row)| && Proves(Receipts(row)[i], h)
  {
    hide Backs, Proves, ReadReceipt, BackedHooks;
    var rs := HookIo(row);
    BackedIff(rs, h);
    assert |rs| == |Receipts(row)|;
    forall i | 0 <= i < |rs| ensures Backs(rs[i], h) <==> Proves(Receipts(row)[i], h) {
      assert rs[i] == ReadReceipt(Receipts(row)[i]);
      BacksIff(Receipts(row)[i], h);
    }
  }

  // ---- the expected hook ---------------------------------------------------

  predicate NoNames(items: seq<Json>) { forall i :: 0 <= i < |items| ==> !Named(items[i]) }

  /** One item is a name, this one, and no other is. */
  ghost predicate OneName(items: seq<Json>, name: string) {
    exists i :: 0 <= i < |items| && Named(items[i]) && Strip(items[i].s) == name
      && forall k :: 0 <= k < |items| && k != i ==> !Named(items[k])
  }

  lemma {:induction false} NoNamesIff(items: seq<Json>)
    ensures Names(items) == [] <==> NoNames(items)
  {
    hide Named, Strip;
    if items != [] {
      NoNamesIff(items[..|items| - 1]);
    }
  }

  lemma NamedIsText(j: Json)
    ensures Named(j) ==> j.Str?
  {
  }

  lemma OneItem<T>(xs: seq<T>, x: T, y: T)
    ensures xs + [x] == [y] <==> xs == [] && x == y
  {
    if xs + [x] == [y] { assert |xs| + 1 == 1 && (xs + [x])[0] == y; }
  }

  lemma OneNameLast(items: seq<Json>, name: string)
    requires items != [] && Named(items[|items| - 1])
    ensures OneName(items, name) <==> NoNames(items[..|items| - 1]) && Strip(items[|items| - 1].s) == name
  {
    hide Named, Strip;
    NamedIsText(items[|items| - 1]);
  }

  lemma OneNameBefore(items: seq<Json>, name: string)
    requires items != [] && !Named(items[|items| - 1])
    ensures OneName(items, name) <==> OneName(items[..|items| - 1], name)
  {
    hide Strip;
    var n, front := |items| - 1, items[..|items| - 1];
    if OneName(front, name) {
      var i :| 0 <= i < n && Named(front[i]) && Strip(front[i].s) == name && forall k :: 0 <= k < n && k != i ==> !Named(front[k]);
      assert Named(items[i]) && forall k :: 0 <= k < n && k != i ==> !Named(front[k]);
      assert forall k :: 0 <= k < n ==> front[k] == items[k];
    }
    if OneName(items, name) {
      var i :| 0 <= i < |items| && Named(items[i]) && Strip(items[i].s) == name && forall k :: 0 <= k < |items| && k != i ==> !Named(items[k]);
      assert Named(front[i]);
    }
  }

  lemma {:induction false} OneNameIff(items: seq<Json>, name: string)
    ensures Names(items) == [name] <==> OneName(items, name)
  {
    hide Strip, Named, OneName, NoNames;
    if items == [] {
      NoOneName(name);
    } else {
      var n := |items| - 1;
      NamedIsText(items[n]);
      if Named(items[n]) {
        NoNamesIff(items[..n]);
        OneItem(Names(items[..n]), Strip(items[n].s), name);
        OneNameLast(items, name);
      } else {
        OneNameIff(items[..n], name);
        OneNameBefore(items, name);
        assert Names(items) == Names(items[..n]);
      }
    }
  }

  lemma NoOneName(name: string)
    ensures !OneName([], name)
  {
  }

  /** The hook a receipt must name: the one asked for, or else the only one expected. */
  lemma {:induction false} HookAsked(e: Expected, name: string)
    ensures ExpectedHook(e) == Some(name) <==>
      e.hook == Some(name) || (e.hook == None && e.hooks.List? && OneName(e.hooks.items, name))
  {
    hide Named, Strip, Names, OneName;
    if e.hooks.List? { OneNameIff(e.hooks.items, name); }
  }

  // ---- the declared status -------------------------------------------------

  /** Blanks around the declared status are ignored; nothing, null and blanks all declare the
      empty word. */
  lemma {:induction false} StatusTrimmed(v: Validator, row: Object, s: string)
    requires forall t :: v.show(Str(t)) == t
    ensures var field := "result_contract_status";
      && StatusOf(v, row[field := Str(s)]) == StatusOf(v, row[field := Str(Strip(s))])
      && (Strip(s) == "" ==> StatusOf(v, row[field := Str(s)]) == v.lower(""))
      && (Get(row, field) == Null ==> StatusOf(v, row) == v.lower(""))
  {
    hide Strip;
    StripIsNormalForm(s);
    StripIsNormalForm(Strip(s));
    StripIsNormalForm("");
    assert Strip("") == "" by { NothingToStrip(); }
  }

  lemma NothingToStrip()
    ensures Strip("") == ""
  {
  }
}
