/**
 * The shopping-assistant chat (Chatbot.tsx): the message list, the send
 * guard, and turning the assistant's recommended ids into catalog products.
 * The assistant itself is outside the model: its answer arrives as a value.
 */
module Chatbot {
  import opened Wrappers
  import opened Types
  import opened Text
  import Catalog

  const Greeting: string := "Hello! I'm FlexBot, your shopping assistant. How can I help you find the perfect tech accessory today?"
  const Apology: string := "Sorry, I had trouble connecting. Please try again."

  datatype Sender = UserSender | BotSender

  /** A chat bubble; only answers from the assistant carry a product list. */
  datatype Message = Message(sender: Sender, text: string, recommendations: Option<seq<Product>>)

  /** The chat: messages, the input box, and whether an answer is awaited. */
  datatype Chat = Chat(messages: seq<Message>, input: string, loading: bool)

  const Initial: Chat := Chat([Message(BotSender, Greeting, None)], "", false)

  /** What the assistant returned: its text and the ids it recommends, or a failure. */
  datatype Answer = Reply(text: string, ids: seq<int>) | Failure

  /** `handleSendMessage` up to the request: a blank input or a pending answer does nothing. */
  function Send(c: Chat): (r: (Chat, Option<string>))
    ensures IsBlank(c.input) || c.loading ==> r == (c, None)
    ensures !IsBlank(c.input) && !c.loading ==>
      && r.0.messages == c.messages + [Message(UserSender, c.input, None)]
      && r.0.input == ""
      && r.0.loading
      && r.1 == Some(c.input)
  {
    TrimEmptyIffBlank(c.input);
    if Trim(c.input) == "" || c.loading then (c, None)
    else (Chat(c.messages + [Message(UserSender, c.input, None)], "", true), Some(c.input))
  }

  /** Map each recommended id to its catalog product and drop those with none. */
  function Resolve(ids: seq<int>, products: seq<Product>): (r: seq<Product>)
    ensures |r| <= |ids|
    ensures forall p :: p in r ==> p in products && p.id in ids
  {
    if |ids| == 0 then []
    else
      var head := match Catalog.FindProduct(products, ids[0])
        case Some(p) => [p]
        case None => [];
      head + Resolve(ids[1..], products)
  }

  /** Recommending known ids yields one product per id, in the recommended order. */
  lemma {:induction false} ResolveKnownIds(ids: seq<int>, products: seq<Product>)
    requires forall id :: id in ids ==> exists p :: p in products && p.id == id
    ensures |Resolve(ids, products)| == |ids|
    ensures forall i :: 0 <= i < |ids| ==> Resolve(ids, products)[i].id == ids[i]
    ensures forall i :: 0 <= i < |ids| ==> Some(Resolve(ids, products)[i]) == Catalog.FindProduct(products, ids[i])
    ensures forall i :: 0 <= i < |ids| ==>
      exists k :: Catalog.FirstWithId(products, k, ids[i]) && products[k] == Resolve(ids, products)[i]
    decreases |ids|
  {
    if |ids| > 0 {
      assert ids[0] in ids;
      assert forall id :: id in ids[1..] ==> id in ids;
      ResolveKnownIds(ids[1..], products);
      var p := Catalog.FindProduct(products, ids[0]);
      var k :| Catalog.FirstWithId(products, k, ids[0]) && products[k] == p.value;
      var r, rest := Resolve(ids, products), Resolve(ids[1..], products);
      assert r == [p.value] + rest;
      forall i | 0 <= i < |ids|
        ensures Some(r[i]) == Catalog.FindProduct(products, ids[i])
        ensures exists k :: Catalog.FirstWithId(products, k, ids[i]) && products[k] == r[i]
      {
        if i == 0 {
          assert Catalog.FirstWithId(products, k, ids[0]) && products[k] == r[0];
        } else {
          assert r[i] == rest[i - 1] && ids[i] == ids[1..][i - 1];
        }
      }
    }
  }

  /** An id no product has contributes nothing. */
  lemma {:induction false} ResolveDropsUnknown(before: seq<int>, id: int, after: seq<int>, products: seq<Product>)
    requires forall p :: p in products ==> p.id != id
    ensures Resolve(before + [id] + after, products) == Resolve(before + after, products)
    decreases |before|
  {
    if |before| == 0 {
      assert before + [id] + after == [id] + after;
      assert before + after == after;
      assert ([id] + after)[1..] == after;
      assert Catalog.FindProduct(products, id).None?;
    } else {
      assert (before + [id] + after)[1..] == before[1..] + [id] + after;
      assert (before + after)[1..] == before[1..] + after;
      ResolveDropsUnknown(before[1..], id, after, products);
    }
  }

  /** The answer's arrival: one bot message, the reply or the apology; loading ends either way. */
  function Receive(c: Chat, answer: Answer, products: seq<Product>): (r: Chat)
    ensures |r.messages| == |c.messages| + 1 && r.messages[..|c.messages|] == c.messages
    ensures r.messages[|c.messages|].sender == BotSender
    ensures answer.Reply? ==>
      r.messages[|c.messages|] == Message(BotSender, answer.text, Some(Resolve(answer.ids, products)))
    ensures answer.Failure? ==> r.messages[|c.messages|] == Message(BotSender, Apology, None)
    ensures !r.loading && r.input == c.input
  {
    var reply := match answer
      case Reply(text, ids) => Message(BotSender, text, Some(Resolve(ids, products)))
      case Failure => Message(BotSender, Apology, None);
    Chat(c.messages + [reply], c.input, false)
  }

  /** A full exchange from an idle chat adds exactly the user's line and one answer, and leaves the chat idle. */
  lemma ExchangeAddsTwoMessages(c: Chat, answer: Answer, products: seq<Product>)
    requires !IsBlank(c.input) && !c.loading
    ensures var sent := Send(c).0;
      var after := Receive(sent, answer, products);
      && |after.messages| == |c.messages| + 2
      && after.messages[..|c.messages|] == c.messages
      && after.messages[|c.messages|] == Message(UserSender, c.input, None)
      && !after.loading && after.input == ""
  {
    var sent := Send(c).0;
    var after := Receive(sent, answer, products);
    assert after.messages[..|sent.messages|] == sent.messages;
    assert after.messages[..|c.messages|] == sent.messages[..|c.messages|];
  }
}
