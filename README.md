# Food-ordering request handler, in Dafny

This project models the core of a Telegram food-ordering bot: the class
`RequestHandler` of `src/main/java/RequestHandler.java`. The handler keeps one
shared list of orders and a cache of the menus already shown. It reads a bot
command and its argument, then runs the command:

- `/add` stores an order;
- `/clear` forgets all orders;
- `/view` lists the orders;
- `/collate` counts the orders per item;
- `/split` lists the orders per user;
- `/order` builds the text for a speech service;
- `/menu` shows a menu picture.

Each recognised command leaves at most one of three results behind: a text
reply, a voice message or a photo. An unsupported `/menu` name leaves none of
them, and a fresh handler has two set (see below).

The modules follow the structure of the Java class:

- `Text` (text.dfy) holds the string primitives the handler relies on:
  - decimal rendering of a count;
  - `StringUtils.capitalize`;
  - `String.indexOf`;
  - `replaceAll` of the line break.
- `Commands` (commands.dfy) models the `Command` enum, `parseCommand` and `removeFirstWord`.
- `Orders` (orders.dfy) covers the `Order` record and the two groupings, per item name (`loadOrdersByItem`) and per user name (`loadItemsByUser`). It proves what the groupings mean:
  - every key is a name that occurs;
  - every count or list is exactly that name's orders;
  - the groups together account for every order once.
- `Render` (render.dfy) defines the fixed messages and each text the handler builds, as functions of the orders.
  - Java's `HashMap` has no specified iteration order. A text that walks a map is therefore described by a predicate, such as `IsCollation` or `IsSplit`: for some enumeration of the map's keys, the text is exactly the one built along it.
- `Handler` (handler.dfy) models the class `RequestHandler`:
  - the fields `orders`, `menuMap`, `response`, `audioOrder` and `photoMessage`;
  - the setters;
  - every command operation, as a method with loops where the Java has loops;
  - `execute`.

  Loops over a map's key set take the next key with `:|`, so no iteration order is assumed.
- `Scenarios` (scenarios.dfy) drives `Execute` through short conversations and states the exact results.

Behaviour kept as the code has it:

- **Unknown command.** `execute` sets the error text and then switches on `null`, which throws. `Execute` returns `Crashed` with the error text set. The `default` branch is unreachable.
- **Empty command entity.** `substring(1)` throws before anything changes.
- **Unsupported menu.** `loadMenu` returns `null`, and `setPhoto(null)` leaves all three results empty. `MESSAGE_NO_MENU` is never used.
- **Confirmation header.** The header of `addOrder` wraps the user name in backticks and echoes the raw item text. The stored name is the capitalised one.
- **Constructor.** The constructor sets both the error text and an empty voice message. The "at most one result" invariant therefore holds only after the first setter call.
- **`/split` with no orders.** `splitOrdersByUser` has no empty check, so without orders it returns just its header.

## Model

| member | source | states |
|---|---|---|
| Text.NatToString | src/main/java/RequestHandler.java:375 | a count renders as a non-empty run of digits that starts with 0 exactly when the count is 0 |
| Text.NatToStringReadsBack | src/main/java/RequestHandler.java:375 | the decimal rendering of a count reads back as that count |
| Text.NatToStringInjective | src/main/java/RequestHandler.java:375 | different counts render differently |
| Text.Capitalize | src/main/java/RequestHandler.java:142 | capitalising keeps the length, maps empty to empty, upper-cases the first character and keeps the rest |
| Text.IndexOf | src/main/java/RequestHandler.java:379 | the result is -1 exactly when the character is absent; otherwise it is a position holding the character with no earlier occurrence |
| Text.ReplaceAll | src/main/java/RequestHandler.java:327 | after replacing a character by text without it, the character is gone; text without it is unchanged |
| Text.ReplaceAllConcat | src/main/java/RequestHandler.java:327 | replacement distributes over concatenation |
| Text.ReplaceAtLineEnd | src/main/java/RequestHandler.java:327 | in a line followed by a break, only the break is replaced |
| Text.CountCharConcat | src/main/java/RequestHandler.java:185-188 | counting line breaks adds up over concatenation |
| Commands.CommandNameInjective | src/main/java/RequestHandler.java:386-403 | the seven command words are pairwise different |
| Commands.ParseCommand | src/main/java/RequestHandler.java:382-404 | the first character is dropped; a command is returned exactly when the rest is that command's word (case-sensitive); otherwise no word matches |
| Commands.ParseCommandName | src/main/java/RequestHandler.java:382-404 | any marker followed by a command's word parses to that command |
| Commands.RemoveFirstWord | src/main/java/RequestHandler.java:378-380 | without a space the whole string comes back; otherwise the result is the suffix after the first space, which nothing before it contains |
| Commands.RemoveFirstWordAfter | src/main/java/RequestHandler.java:378-380 | a space-free word, a space and a rest give back the rest |
| Orders.GroupNonEmpty | src/main/java/RequestHandler.java:214-224 | a key has a non-empty group exactly when some order carries it |
| Orders.GroupMultiplicity | src/main/java/RequestHandler.java:262-272 | a group holds each order of its key as often as the list does, and nothing else |
| Orders.KeyOrderSize | src/main/java/RequestHandler.java:203 | an enumeration of a map's key set has one entry per key |
| Orders.KeyOrderOfTwo | src/main/java/RequestHandler.java:237 | two distinct keys can be walked in only two ways, one key first or the other |
| Orders.ItemCountsMeaning | src/main/java/RequestHandler.java:211-227 | the per-item map is keyed by exactly the item names present, each mapped to the number of orders with that name |
| Orders.UserGroupsMeaning | src/main/java/RequestHandler.java:258-275 | the per-user map is keyed by exactly the user names present, each mapped to that user's orders in their original order |
| Orders.ItemCountsAreOccurrences | src/main/java/RequestHandler.java:211-227 | a name is a key iff some order has it; every count is at least 1; the group behind a count holds exactly the orders with that name |
| Orders.UserGroupsAreOccurrences | src/main/java/RequestHandler.java:258-275 | a user is a key iff some order is theirs; every list is non-empty and holds exactly that user's orders |
| Orders.ItemCountsSnoc | src/main/java/RequestHandler.java:214-224 | one more order adds one to its name's count, or starts it at one |
| Orders.ItemCountsStep | src/main/java/RequestHandler.java:214-224 | the same one-order update, over a prefix of the list |
| Orders.UserGroupsSnoc | src/main/java/RequestHandler.java:262-272 | one more order is appended to its user's list, or starts a new list |
| Orders.UserGroupsStep | src/main/java/RequestHandler.java:262-272 | the same one-order update, over a prefix of the list |
| Orders.ItemCountsConservation | src/main/java/RequestHandler.java:211-227 | along any enumeration of the keys, the counts add up to the number of orders |
| Orders.UserGroupsConservation | src/main/java/RequestHandler.java:258-275 | along any enumeration of the users, the list lengths add up to the number of orders |
| Orders.LoadOrdersByItem | src/main/java/RequestHandler.java:211-227 | the loop builds exactly the per-item counts |
| Render.BuildItemStringReadsBack | src/main/java/RequestHandler.java:370-376 | an item line is the count's digits, " x ", the name with an "s" added exactly when the count exceeds 1 and the name does not end in "s", and a newline |
| Render.PluralExamples | src/main/java/RequestHandler.java:370-376 | "1 x fry", "3 x frys" and "5 x chips": the naive plural rule on concrete names |
| Render.BurgersLine | src/main/java/RequestHandler.java:370-376 | two burgers render as "2 x Burgers" |
| Render.ItemLinesListEachItem | src/main/java/RequestHandler.java:203-205 | every enumerated item's line occurs in the item lines |
| Render.ItemLinesOfOne | src/main/java/RequestHandler.java:203-205 | a map with one key prints exactly that key's item line |
| Render.ViewTextNoOrders | src/main/java/RequestHandler.java:178-190 | the view is the no-orders message exactly when there are no orders |
| Render.ViewLinesOnePerOrder | src/main/java/RequestHandler.java:185-188 | when no view string contains a line break, the view has one line per order |
| Render.CollationAccountsForEveryOrder | src/main/java/RequestHandler.java:193-208 | the collation is the no-orders message exactly when there are no orders; otherwise every order's item line is in it and the printed counts add up to the number of orders |
| Render.SplitOfNoOrders | src/main/java/RequestHandler.java:230-256 | with no orders the split is its bare header, not the no-orders message |
| Render.SplitListsEveryOrder | src/main/java/RequestHandler.java:230-256 | the per-user sections of a split list every order once |
| Render.SummaryBodySnoc | src/main/java/RequestHandler.java:154-165 | reporting one more user extends the report by that user's summary |
| Render.SummaryTotalIsSumLengths | src/main/java/RequestHandler.java:154-165 | the counts printed for the users add up to their list lengths |
| Render.AdditionReportAccountsForEveryOrder | src/main/java/RequestHandler.java:144-167 | the confirmation reprints the whole store: its counts, over all users and items, add up to the number of orders |
| Render.TtsPayloadSingleLine | src/main/java/RequestHandler.java:327 | the JSON body contains no line break |
| Render.ScriptOfNoItems | src/main/java/RequestHandler.java:318-325 | with no items the script is the opening, the request and the closing |
| Render.ScriptPartsHaveNoBreaks | src/main/java/RequestHandler.java:318-325 | the fixed script phrases hold no line break |
| Render.TtsPayloadOfNoOrders | src/main/java/RequestHandler.java:314-328 | with no orders the body is still built: the opening, a break tag, then "Can I have Thank you!" and a break tag |
| Handler.WriteItemLines | src/main/java/RequestHandler.java:203-205 | the loop appends one item line per key, along an enumeration of all keys |
| Handler.WriteNameLines | src/main/java/RequestHandler.java:242-248 | the loop appends each order's name on its own line, in list order |
| Handler.WriteSummaries | src/main/java/RequestHandler.java:152-165 | the loop writes one summary per user, along enumerations of the users and of each user's items |
| Handler.RequestHandler.constructor | src/main/java/RequestHandler.java:47-52 | no orders, the menu cache kept, the error text and an empty voice both set, so at most one result does not hold |
| Handler.RequestHandler.SetResponse | src/main/java/RequestHandler.java:105-109 | sets the text and clears voice and photo, so at most one result is set |
| Handler.RequestHandler.SetAudio | src/main/java/RequestHandler.java:115-119 | sets the voice and clears photo and text, so at most one result is set |
| Handler.RequestHandler.SetPhoto | src/main/java/RequestHandler.java:125-129 | sets the photo and clears voice and text, so at most one result is set |
| Handler.RequestHandler.AddOrder | src/main/java/RequestHandler.java:136-168 | appends exactly the capitalised order and touches nothing else; the report is the header echoing the raw text plus one summary per user |
| Handler.RequestHandler.ClearOrders | src/main/java/RequestHandler.java:171-175 | the orders become empty whatever they were, so it is idempotent; "Cleared your orders!" is returned and the menu cache is untouched |
| Handler.RequestHandler.ViewOrders | src/main/java/RequestHandler.java:178-190 | the view text, and the orders are not changed |
| Handler.RequestHandler.CollateOrders | src/main/java/RequestHandler.java:193-208 | a collation of the current orders, and the orders are not changed |
| Handler.RequestHandler.SplitOrdersByUser | src/main/java/RequestHandler.java:230-256 | a split of the current orders, with no empty check |
| Handler.RequestHandler.LoadItemsByUser | src/main/java/RequestHandler.java:258-275 | the loop builds exactly the per-user lists |
| Handler.RequestHandler.LoadMenu | src/main/java/RequestHandler.java:278-298 | any name but "Shake Shack" gives no photo and leaves the cache; that name gives a photo for the chat and is in the cache afterwards, and a repeat adds nothing |
| Handler.RequestHandler.ConvertOrdersToJson | src/main/java/RequestHandler.java:314-328 | the JSON body of the speech script over the item counts, for some key order |
| Handler.RequestHandler.TtsOrder | src/main/java/RequestHandler.java:301-312 | a voice message for the chat carrying that JSON body |
| Handler.RequestHandler.Dispatch | src/main/java/RequestHandler.java:69-101 | each recognised command has its effect and result; at most one result is set; the menu cache only grows |
| Handler.RequestHandler.RunCommand | src/main/java/RequestHandler.java:58-101 | it completes exactly for a recognised command. An unknown one sets the error text, clears voice and photo, and leaves the orders and the menu cache alone. A recognised one has its command's effect. |
| Handler.RequestHandler.Execute | src/main/java/RequestHandler.java:54-103 | it completes exactly for a non-empty entity naming a command. An empty entity changes nothing. An unknown command sets the error text and crashes. Otherwise the parsed command runs on the text after the first word. |
| Scenarios.BurgerCollation | src/main/java/RequestHandler.java:193-208 | two orders of "Burger" collate to the single line "2 x Burgers" |
| Scenarios.TacoBurgerSplit | src/main/java/RequestHandler.java:230-256 | two users with one order each: one section per user, in either order |
| Scenarios.BurgerCounts | src/main/java/RequestHandler.java:211-227 | two burger orders count as "Burger" mapped to 2 and nothing else |
| Scenarios.CapitalisedItems | src/main/java/RequestHandler.java:142 | "burger" is stored as "Burger" and "taco" as "Taco" |
| Scenarios.SlashArgument | src/main/java/RequestHandler.java:378-380 | the argument of any "/command argument" message is everything after the first space |
| Scenarios.SendAdd | src/main/java/RequestHandler.java:54-168 | an "/add" message for an item appends exactly that user's capitalised order |
| Scenarios.TwoBurgersCollated | src/main/java/RequestHandler.java:136-208 | "/add burger" twice, then "/collate", replies "2 x Burgers" |
| Scenarios.SplitTwoUsers | src/main/java/RequestHandler.java:230-275 | a taco for Bob and a burger for Alice split into the two sections, in either order |
| Scenarios.ShakeShackTwice | src/main/java/RequestHandler.java:278-298 | "/menu Shake Shack" twice shows the photo both times and caches the menu once |
| Scenarios.UnknownMenu | src/main/java/RequestHandler.java:281-284 | "/menu Burger King" leaves text, voice and photo all empty |
| Scenarios.UnknownCommand | src/main/java/RequestHandler.java:60-69 | "/help" sets the error text and crashes |
| Scenarios.CapitalisedCommand | src/main/java/RequestHandler.java:386-402 | "/Add" is not a command: it crashes and stores nothing |

## Left out

- The speech-service call (`makeTtsRequest` and the reply handling in `ttsOrder`) is HTTP I/O with credentials. `TtsOrder` produces the voice message with the JSON body it would send, not the audio.
- A failed speech request makes `ttsOrder` throw on a `null` reply. That path depends on the network and is not modelled.
- Telegram objects (`Message`, `MessageEntity`, `User`, `SendVoice`, `SendPhoto`) become plain inputs: entity text, message text, user id, first name and chat id. A photo is just the chat id, and the image file path is not modelled.
- An empty entity list (`entities.get(0)` throwing) is not modelled. `Execute` takes the first entity's text.
- Handler.RequestHandler.Execute: strips the first word before setting the error text for an unknown command, where `execute` does it after. `removeFirstWord` changes no state, so the result is the same.
- Logging is left out, including the call to `collateOrders` made only for a log line in `convertOrdersToJson`.
- `Order.getViewString` lives in `Order.java`, which is not part of this model. `ViewOrders` takes it as a parameter `view`.
- `ShakeShackMenu.java` is not part of this model. The menu cache is the set of menu names it holds.
- Text.Capitalize: maps only a–z to upper case. `StringUtils.capitalize` calls `Character.toUpperCase`, which maps any Unicode lower-case letter (é → É).
- `orders` and `menuMap` are static in Java. The model keeps them per handler. The constructor empties the orders as Java does, and takes the current cache as a parameter, since Java does not reset it.
- The per-user lists of `loadItemsByUser` are fresh Java lists. Their aliasing with the map is not modelled, because the maps are values here.
- `String.valueOf(0.0)` is written as the literal "Total = 0.0". No floating point is modelled.
- JSON escaping is not modelled: item names are put into the JSON body as they are, exactly as the source does.
- `Handler.RequestHandler.ConvertOrdersToJson`: appends each spoken line in one step rather than in the source's three appends. The text is the same.
- `Handler.RequestHandler.AddOrder`: the per-user loop is the helper `WriteSummaries`, and the item loop is `WriteItemLines`. The text they append is the same as the inline loops'.
- `Handler.RequestHandler.SplitOrdersByUser`: the per-user name loop is the helper `WriteNameLines`, and each user's section is appended in one step. The text is the same.
- `getResponse`, `getAudioOrder` and `getPhotoMessage` are plain field reads. The model reads the fields directly.
- `MESSAGE_TTS_ERROR`, `MESSAGE_NO_MENU` and their getters are never used by the source, so they are not modelled.
