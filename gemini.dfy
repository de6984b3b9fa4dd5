/**
 * The Gemini client as the scripts use it: constructing it fails when no API key is
 * configured, and `generate_content` either raises or returns a response text. What the
 * service answers to a request is the `answer` function the client is created with; every
 * property proved below holds for every such function, so the service stays an unknown oracle.
 */
module Gemini {

  datatype Reply = Raised | Returned(text: string)

  class Client {
    /** Whether `genai.Client()` finds credentials; without them it raises. */
    const apiKey: bool
    const answer: string -> Reply
    /** Every request sent with `generate_content`, oldest first. */
    var requests: seq<string>

    constructor (apiKey: bool, answer: string -> Reply)
      ensures this.apiKey == apiKey && this.answer == answer
      ensures requests == []
    {
      this.apiKey := apiKey;
      this.answer := answer;
      requests := [];
    }

    method GenerateContent(contents: string) returns (reply: Reply)
      modifies this
      ensures requests == old(requests) + [contents]
      ensures reply == answer(contents)
    {
      requests := requests + [contents];
      reply := answer(contents);
    }
  }
}
