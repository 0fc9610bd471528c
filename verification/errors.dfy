/** The exceptions the mediation layer raises or lets through. */
module Errors {
  datatype Error =
    | UnknownForce(force: string)        // AslError: unknown illocutionary force
    | MissingKey(key: string)            // KeyError on the message metadata
    | LiteralEvalFailed(text: string)    // literal_eval rejected the argument text
    | BeliefNotInitiated(key: string)    // the first matching signature holds no fact
    | NoEngine                           // AttributeError: no reasoning engine built yet
    | NoOpenParen                        // IndexError: split('(')[1] on a text without '('
    | MissingSource                      // AslError: plan query without a source annotation
    | NoArgument                         // IndexError: args[0] of a literal without arguments
    | NotAContainer                      // TypeError: `in` or iteration on a non-container
    | NotGrounded                        // the engine could not ground an action argument
    | NotAnAtom                          // the action returned before yielding: its intention fails
    | AslFileUnset                       // TypeError: open(None)
    | BuildFailed(path: string)          // the engine rejected the plan source
}
