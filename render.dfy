/**
 * The texts the request handler produces, as functions of the orders: the
 * fixed messages, `buildItemString`, and the reports built by `addOrder`,
 * `viewOrders`, `collateOrders`, `splitOrdersByUser` and
 * `convertOrdersToJson`.
 *
 * Reports that walk a HashMap are described for SOME iteration order of its
 * keys: the `Is...` predicates say "there is an enumeration of the keys along
 * which the text is exactly this".
 */
module Render {
  import opened Text
  import opened Orders

  const CommandErrorMessage := "Sorry, I didn't understand that! Could you try again?"
  const NoOrdersMessage := "You have no orders! Try adding one with '/add'!"
  const ClearedMessage := "Cleared your orders!"
  const ViewHeader := "These are your orders so far:\n\n"
  const CollateHeader := "Collated your orders!\n\n"
  const SplitHeader := "Split your bill by user:\n\n"
  /** `"Total = " + String.valueOf(0.0)`: no price is ever added up. */
  const SplitTotal := "Total = 0.0"
  const ScriptOpening := "Hi, I would like to place a delivery order."
  const ScriptRequest := "Can I have "
  const ScriptClosing := "Thank you!"
  const BreakTag := "<break/>"

  /** `buildItemString`: count, " x ", the naively pluralised name, newline. */
  function BuildItemString(name: string, n: nat): string {
    var noun := if n > 1 && !EndsWithS(name) then name + "s" else name;
    NatToString(n) + " x " + noun + "\n"
  }

  /**
   * An item line reads back as its count, then " x ", then the name with an
   * "s" appended exactly when the count exceeds one and the name does not
   * already end in "s", then a newline.
   */
  lemma BuildItemStringReadsBack(name: string, n: nat)
    ensures var line, d := BuildItemString(name, n), |NatToString(n)|;
      && d + 4 <= |line|
      && (forall i :: 0 <= i < d ==> IsDigit(line[i]))
      && DigitsValue(line[..d]) == n
      && line[d..d + 3] == " x "
      && line[|line| - 1] == '\n'
      && (line[d + 3..|line| - 1] == name || line[d + 3..|line| - 1] == name + "s")
      && (line[d + 3..|line| - 1] == name + "s" <==> n > 1 && !EndsWithS(name))
  {
    var digits := NatToString(n);
    var d := |digits|;
    var line := BuildItemString(name, n);
    var noun := if n > 1 && !EndsWithS(name) then name + "s" else name;
    assert line == digits + " x " + noun + "\n";
    assert line[..d] == digits;
    assert line[d..d + 3] == " x ";
    assert line[d + 3..|line| - 1] == noun;
    NatToStringReadsBack(n);
  }

  lemma PluralExamples()
    ensures BuildItemString("fry", 1) == "1 x fry\n"
    ensures BuildItemString("fry", 3) == "3 x frys\n"
    ensures BuildItemString("chips", 5) == "5 x chips\n"
  {
  }

  lemma BurgersLine()
    ensures BuildItemString("Burger", 2) == "2 x Burgers\n"
  {
  }

  /** The item lines along `keys`, one `buildItemString` per key. */
  function ItemLines(keys: seq<string>, counts: map<string, nat>): string
    requires forall k :: k in keys ==> k in counts
  {
    if keys == [] then ""
    else
      var k := keys[|keys| - 1];
      ItemLines(keys[..|keys| - 1], counts) + BuildItemString(k, counts[k])
  }

  /** A single key gives a single item line. */
  lemma ItemLinesOfOne(k: string, counts: map<string, nat>)
    requires k in counts
    ensures ItemLines([k], counts) == BuildItemString(k, counts[k])
  {
    assert [k][..0] == [];
    assert ItemLines([k], counts) == "" + BuildItemString(k, counts[k]);
  }

  /** `s` occurs somewhere inside `t`. */
  predicate IsInfix(s: string, t: string) {
    exists i, j :: 0 <= i <= j <= |t| && t[i..j] == s
  }

  lemma InfixOfAppend(s: string, a: string, b: string)
    requires IsInfix(s, a)
    ensures IsInfix(s, a + b)
  {
    var i, j :| 0 <= i <= j <= |a| && a[i..j] == s;
    assert (a + b)[i..j] == s;
  }

  lemma InfixOfPrepend(s: string, a: string, b: string)
    requires IsInfix(s, b)
    ensures IsInfix(s, a + b)
  {
    var i, j :| 0 <= i <= j <= |b| && b[i..j] == s;
    assert (a + b)[|a| + i..|a| + j] == s;
  }

  /** Every listed item appears with its own line. */
  lemma {:induction false} ItemLinesListEachItem(keys: seq<string>, counts: map<string, nat>, k: string)
    requires forall k :: k in keys ==> k in counts
    requires k in keys
    ensures IsInfix(BuildItemString(k, counts[k]), ItemLines(keys, counts))
  {
    var ks, last := keys[..|keys| - 1], keys[|keys| - 1];
    var lines, line := ItemLines(ks, counts), BuildItemString(last, counts[last]);
    assert ItemLines(keys, counts) == lines + line;
    if k == last {
      assert (lines + line)[|lines|..|lines + line|] == line;
    } else {
      assert keys == ks + [last];
      ItemLinesListEachItem(ks, counts, k);
      InfixOfAppend(BuildItemString(k, counts[k]), lines, line);
    }
  }

  /** The view lines: one `getViewString` line per order, in insertion order. */
  function ViewLines(orders: seq<Order>, view: Order -> string): string {
    if orders == [] then ""
    else ViewLines(orders[..|orders| - 1], view) + view(orders[|orders| - 1]) + "\n"
  }

  /** The no-orders message opens with 'Y', unlike every header a listing starts with. */
  lemma NoOrdersMessageInitial()
    ensures NoOrdersMessage[0] == 'Y'
  {
    var opening := "You have no orders! ";
    assert NoOrdersMessage == opening + "Try adding one with '/add'!";
    assert NoOrdersMessage[0] == opening[0];
  }

  /** What `viewOrders` returns. */
  function ViewText(orders: seq<Order>, view: Order -> string): string {
    if orders == [] then NoOrdersMessage else ViewHeader + ViewLines(orders, view)
  }

  /** The view is the no-orders message exactly when there are no orders. */
  lemma ViewTextNoOrders(orders: seq<Order>, view: Order -> string)
    ensures ViewText(orders, view) == NoOrdersMessage <==> orders == []
  {
    if orders != [] {
      var t := ViewText(orders, view);
      assert t == ViewHeader + ViewLines(orders, view);
      assert t[0] == ViewHeader[0] == 'T';
      NoOrdersMessageInitial();
    }
  }

  /** When no view string breaks a line, the view has exactly one line per order. */
  lemma {:induction false} ViewLinesOnePerOrder(orders: seq<Order>, view: Order -> string)
    requires forall o :: o in orders ==> '\n' !in view(o)
    ensures CountChar(ViewLines(orders, view), '\n') == |orders|
  {
    if orders != [] {
      var p, o := orders[..|orders| - 1], orders[|orders| - 1];
      assert forall q :: q in p ==> q in orders;
      ViewLinesOnePerOrder(p, view);
      CountCharConcat(ViewLines(p, view), view(o), '\n');
      CountCharConcat(ViewLines(p, view) + view(o), "\n", '\n');
    }
  }

  /** What `collateOrders` may return, for some iteration order of the item counts. */
  ghost predicate IsCollation(orders: seq<Order>, text: string) {
    if orders == [] then text == NoOrdersMessage
    else exists keys :: IsKeyOrder(keys, ItemCounts(orders).Keys) && text == CollateHeader + ItemLines(keys, ItemCounts(orders))
  }

  /**
   * A collation is the no-orders message exactly when there are no orders;
   * otherwise it has one line per distinct item, the line of every item is in
   * it, and its counts add up to the number of orders.
   */
  lemma CollationAccountsForEveryOrder(orders: seq<Order>, text: string)
    requires IsCollation(orders, text)
    ensures text == NoOrdersMessage <==> orders == []
    ensures orders != [] ==> forall o :: o in orders ==>
      o.name in ItemCounts(orders) && IsInfix(BuildItemString(o.name, ItemCounts(orders)[o.name]), text)
    ensures orders != [] ==> exists keys ::
      && IsKeyOrder(keys, ItemCounts(orders).Keys)
      && text == CollateHeader + ItemLines(keys, ItemCounts(orders))
      && SumValues(ItemCounts(orders), keys) == |orders|
  {
    if orders != [] {
      var m := ItemCounts(orders);
      var keys :| IsKeyOrder(keys, m.Keys) && text == CollateHeader + ItemLines(keys, m);
      assert text[0] == CollateHeader[0] == 'C';
      NoOrdersMessageInitial();
      ItemCountsConservation(orders, keys);
      ItemCountsMeaning(orders);
      forall o | o in orders
        ensures o.name in m && IsInfix(BuildItemString(o.name, m[o.name]), text)
      {
        assert o.name in KeySet(orders, ByItemName);
        ItemLinesListEachItem(keys, m, o.name);
        InfixOfPrepend(BuildItemString(o.name, m[o.name]), CollateHeader, ItemLines(keys, m));
      }
    }
  }

  /** One order name per line, in order. */
  function NameLines(orders: seq<Order>): string {
    if orders == [] then ""
    else NameLines(orders[..|orders| - 1]) + orders[|orders| - 1].name + "\n"
  }

  /** One user's part of `splitOrdersByUser`. */
  function SplitSection(user: string, orders: seq<Order>): string {
    user + " ordered:\n" + NameLines(orders) + SplitTotal + "\n" + "\n"
  }

  function SplitBody(groups: map<string, seq<Order>>, users: seq<string>): string
    requires forall u :: u in users ==> u in groups
  {
    if users == [] then ""
    else
      var u := users[|users| - 1];
      SplitBody(groups, users[..|users| - 1]) + SplitSection(u, groups[u])
  }

  /** What `splitOrdersByUser` may return, for some iteration order of the users. */
  ghost predicate IsSplit(orders: seq<Order>, text: string) {
    exists users :: IsKeyOrder(users, UserGroups(orders).Keys) && text == SplitHeader + SplitBody(UserGroups(orders), users)
  }

  lemma KeyOrderOfEmpty(keys: seq<string>)
    requires IsKeyOrder(keys, {})
    ensures keys == []
  {
    KeyOrderSize(keys, {});
  }

  /** Without orders the split is its bare header, not the no-orders message. */
  lemma SplitOfNoOrders(text: string)
    requires IsSplit([], text)
    ensures text == SplitHeader && text != NoOrdersMessage
  {
    var users :| IsKeyOrder(users, UserGroups([]).Keys) && text == SplitHeader + SplitBody(UserGroups([]), users);
    KeyOrderOfEmpty(users);
  }

  /** The sections of a split list, together, every order once. */
  lemma SplitListsEveryOrder(orders: seq<Order>, text: string)
    requires IsSplit(orders, text)
    ensures exists users ::
      && IsKeyOrder(users, UserGroups(orders).Keys)
      && text == SplitHeader + SplitBody(UserGroups(orders), users)
      && SumLengths(UserGroups(orders), users) == |orders|
  {
    var users :| IsKeyOrder(users, UserGroups(orders).Keys) && text == SplitHeader + SplitBody(UserGroups(orders), users);
    UserGroupsConservation(orders, users);
  }

  /** The first two lines of the `addOrder` report; they echo the raw text. */
  function AdditionHeader(userName: string, text: string): string {
    "`" + userName + "` added 1 " + text + "!\n" + "\n"
  }

  /** One user's part of the `addOrder` report: that user's own item counts. */
  function UserSummary(user: string, orders: seq<Order>, itemKeys: seq<string>): string
    requires forall k :: k in itemKeys ==> k in ItemCounts(orders)
  {
    user + " ordered:\n" + ItemLines(itemKeys, ItemCounts(orders)) + "\n"
  }

  /** `itemOrders[i]` enumerates the items of user `users[i]`. */
  ghost predicate ItemOrdersMatch(groups: map<string, seq<Order>>, users: seq<string>, itemOrders: seq<seq<string>>) {
    && |itemOrders| == |users|
    && (forall u :: u in users ==> u in groups)
    && forall i :: 0 <= i < |users| ==> IsKeyOrder(itemOrders[i], ItemCounts(groups[users[i]]).Keys)
  }

  /** `users` enumerates the groups and `itemOrders[i]` enumerates the items of `users[i]`. */
  ghost predicate IsSummaryOrder(groups: map<string, seq<Order>>, users: seq<string>, itemOrders: seq<seq<string>>) {
    IsKeyOrder(users, groups.Keys) && ItemOrdersMatch(groups, users, itemOrders)
  }

  function SummaryBody(groups: map<string, seq<Order>>, users: seq<string>, itemOrders: seq<seq<string>>): string
    requires |itemOrders| == |users|
    requires forall u :: u in users ==> u in groups
    requires forall i :: 0 <= i < |users| ==> forall k :: k in itemOrders[i] ==> k in ItemCounts(groups[users[i]])
  {
    if users == [] then ""
    else
      var n := |users| - 1;
      SummaryBody(groups, users[..n], itemOrders[..n]) + UserSummary(users[n], groups[users[n]], itemOrders[n])
  }

  /** Reporting one more user extends the report by that user's summary. */
  lemma SummaryBodySnoc(groups: map<string, seq<Order>>, users: seq<string>, itemOrders: seq<seq<string>>,
                        user: string, itemKeys: seq<string>)
    requires ItemOrdersMatch(groups, users, itemOrders)
    requires user in groups && IsKeyOrder(itemKeys, ItemCounts(groups[user]).Keys)
    ensures ItemOrdersMatch(groups, users + [user], itemOrders + [itemKeys])
    ensures SummaryBody(groups, users + [user], itemOrders + [itemKeys])
         == SummaryBody(groups, users, itemOrders) + UserSummary(user, groups[user], itemKeys)
  {
    assert (users + [user])[..|users|] == users;
    assert (itemOrders + [itemKeys])[..|users|] == itemOrders;
  }

  /** What `addOrder` may return once the new order is stored. */
  ghost predicate IsAdditionReport(orders: seq<Order>, userName: string, text: string, report: string) {
    exists users, itemOrders ::
      && IsSummaryOrder(UserGroups(orders), users, itemOrders)
      && report == AdditionHeader(userName, text) + SummaryBody(UserGroups(orders), users, itemOrders)
  }

  /** The counts printed in the report, added up over all users. */
  function SummaryTotal(groups: map<string, seq<Order>>, users: seq<string>, itemOrders: seq<seq<string>>): nat
    requires |itemOrders| == |users|
    requires forall u :: u in users ==> u in groups
    requires forall i :: 0 <= i < |users| ==> forall k :: k in itemOrders[i] ==> k in ItemCounts(groups[users[i]])
  {
    if users == [] then 0
    else
      var n := |users| - 1;
      SummaryTotal(groups, users[..n], itemOrders[..n]) + SumValues(ItemCounts(groups[users[n]]), itemOrders[n])
  }

  lemma {:induction false} SummaryTotalIsSumLengths(groups: map<string, seq<Order>>, users: seq<string>, itemOrders: seq<seq<string>>)
    requires ItemOrdersMatch(groups, users, itemOrders)
    ensures SummaryTotal(groups, users, itemOrders) == SumLengths(groups, users)
  {
    if users != [] {
      var n := |users| - 1;
      assert ItemOrdersMatch(groups, users[..n], itemOrders[..n]);
      SummaryTotalIsSumLengths(groups, users[..n], itemOrders[..n]);
      ItemCountsConservation(groups[users[n]], itemOrders[n]);
    }
  }

  /**
   * The confirmation reprints the whole store, not just the new order: the
   * counts it prints, over all users and items, add up to the number of orders.
   */
  lemma AdditionReportAccountsForEveryOrder(orders: seq<Order>, userName: string, text: string, report: string)
    requires IsAdditionReport(orders, userName, text, report)
    ensures exists users, itemOrders ::
      && IsSummaryOrder(UserGroups(orders), users, itemOrders)
      && report == AdditionHeader(userName, text) + SummaryBody(UserGroups(orders), users, itemOrders)
      && SummaryTotal(UserGroups(orders), users, itemOrders) == |orders|
  {
    var groups := UserGroups(orders);
    var users, itemOrders :| IsSummaryOrder(groups, users, itemOrders)
      && report == AdditionHeader(userName, text) + SummaryBody(groups, users, itemOrders);
    SummaryTotalIsSumLengths(groups, users, itemOrders);
    UserGroupsConservation(orders, users);
  }

  /** The spoken lines: count, a space, the item name, newline (no pluralisation). */
  function ScriptLines(keys: seq<string>, counts: map<string, nat>): string
    requires forall k :: k in keys ==> k in counts
  {
    if keys == [] then ""
    else
      var k := keys[|keys| - 1];
      ScriptLines(keys[..|keys| - 1], counts) + (NatToString(counts[k]) + " " + k + "\n")
  }

  function Script(keys: seq<string>, counts: map<string, nat>): string
    requires forall k :: k in keys ==> k in counts
  {
    ScriptOpening + "\n" + ScriptRequest + ScriptLines(keys, counts) + ScriptClosing + "\n"
  }

  /** The JSON body sent to the speech service: line breaks become `<break/>` tags. */
  function TtsPayload(script: string): string {
    "{\"text\":\"" + ReplaceAll(script, '\n', BreakTag) + "\"}"
  }

  /** What `convertOrdersToJson` may return, for some iteration order of the item counts. */
  ghost predicate IsTtsPayload(orders: seq<Order>, payload: string) {
    exists keys :: IsKeyOrder(keys, ItemCounts(orders).Keys) && payload == TtsPayload(Script(keys, ItemCounts(orders)))
  }

  /** The payload is a single line: every line break became a tag. */
  lemma TtsPayloadSingleLine(script: string)
    ensures '\n' !in TtsPayload(script)
  {
    assert '\n' !in BreakTag;
  }

  lemma ScriptOfNoItems(counts: map<string, nat>)
    ensures Script([], counts) == (ScriptOpening + "\n") + (ScriptRequest + ScriptClosing + "\n")
  {
  }

  lemma ScriptPartsHaveNoBreaks()
    ensures '\n' !in ScriptOpening && '\n' !in ScriptRequest + ScriptClosing
  {
    assert '\n' !in "Hi, I would like to ";
    assert '\n' !in "place a delivery order.";
  }

  /** Without orders the payload is still built, and the script asks for nothing. */
  lemma TtsPayloadOfNoOrders(payload: string)
    requires IsTtsPayload([], payload)
    ensures payload == "{\"text\":\"" + ((ScriptOpening + BreakTag) + ((ScriptRequest + ScriptClosing) + BreakTag)) + "\"}"
  {
    var counts := ItemCounts([]);
    var keys :| IsKeyOrder(keys, counts.Keys) && payload == TtsPayload(Script(keys, counts));
    assert counts.Keys == {} by {
      assert KeySet([], ByItemName) == {};
    }
    KeyOrderOfEmpty(keys);
    var opening, request := ScriptOpening, ScriptRequest + ScriptClosing;
    ScriptOfNoItems(counts);
    ScriptPartsHaveNoBreaks();
    var body := ReplaceAll((opening + "\n") + (request + "\n"), '\n', BreakTag);
    assert payload == "{\"text\":\"" + body + "\"}";
    ReplaceAllConcat(opening + "\n", request + "\n", '\n', BreakTag);
    ReplaceAtLineEnd(opening, BreakTag);
    ReplaceAtLineEnd(request, BreakTag);
    assert body == (opening + BreakTag) + (request + BreakTag);
  }
}
