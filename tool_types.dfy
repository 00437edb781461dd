/** The uniform tool result and its two constructors (`createErrorResponse`, `createSuccessResponse`). */
module ToolTypes {

  /**
   * One item of a tool result. The helpers build `{ type: "text", text }`; the code generator
   * builds `{ text, mime }`, an item without a `type` field.
   */
  datatype Content = TextContent(text: string) | MimeText(text: string, mime: string)

  datatype ToolResponse = ToolResponse(content: seq<Content>, isError: bool)

  /** The `string | string[]` argument of `createSuccessResponse`. */
  datatype Message = Single(text: string) | Many(texts: seq<string>)

  function Messages(m: Message): seq<string> {
    match m
    case Single(t) => [t]
    case Many(ts) => ts
  }

  /** The texts of a result's items, in order. */
  function Texts(cs: seq<Content>): (ts: seq<string>)
    ensures |ts| == |cs| && forall i :: 0 <= i < |cs| ==> ts[i] == cs[i].text
  {
    seq(|cs|, (i: int) requires 0 <= i < |cs| => cs[i].text)
  }

  /** Every item is a `type: "text"` item. */
  predicate AllText(cs: seq<Content>) {
    forall i :: 0 <= i < |cs| ==> cs[i].TextContent?
  }

  /** An error result carrying exactly the one text item `message`. */
  function CreateErrorResponse(message: string): (r: ToolResponse)
    ensures r.isError
    ensures AllText(r.content) && Texts(r.content) == [message]
  {
    ToolResponse([TextContent(message)], true)
  }

  /** A success result with one text item per message, in the order given. */
  function CreateSuccessResponse(message: Message): (r: ToolResponse)
    ensures !r.isError
    ensures AllText(r.content) && Texts(r.content) == Messages(message)
  {
    var ms := Messages(message);
    ToolResponse(seq(|ms|, (i: int) requires 0 <= i < |ms| => TextContent(ms[i])), false)
  }

  /** Text items are determined by their texts, so the two constructors can be read back exactly. */
  lemma TextItemsDetermined(a: seq<Content>, b: seq<Content>)
    requires AllText(a) && AllText(b) && Texts(a) == Texts(b)
    ensures a == b
  {
    assert |a| == |Texts(a)| == |b|;
    forall i | 0 <= i < |a|
      ensures a[i] == b[i]
    {
      assert Texts(a)[i] == Texts(b)[i];
    }
  }

  /** A single string and a one-element list produce the same success result. */
  lemma SingleIsOneElementList(text: string)
    ensures CreateSuccessResponse(Single(text)) == CreateSuccessResponse(Many([text]))
  {
    TextItemsDetermined(CreateSuccessResponse(Single(text)).content, CreateSuccessResponse(Many([text])).content);
  }

  /** The error constructor and the success constructor agree on the items and differ only in `isError`. */
  lemma ErrorAndSuccessShareItems(text: string)
    ensures CreateErrorResponse(text).content == CreateSuccessResponse(Single(text)).content
    ensures CreateErrorResponse(text).isError != CreateSuccessResponse(Single(text)).isError
  {
    TextItemsDetermined(CreateErrorResponse(text).content, CreateSuccessResponse(Single(text)).content);
  }
}
