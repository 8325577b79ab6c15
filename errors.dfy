/** The error values the library reports. Each constructor stands for one `fmt.Errorf` message of the Go code. */
module Errors {

  datatype Error =
    // enumerations
    | UnknownKind(text: string)             // "unknown processing kind: '%s'"
    | UnknownLevel(text: string)            // "Unknown cache level '%s'"
    // element codec
    | InvalidElement                        // "Invalid Element" (encoding a both-set element)
    | Syntax                                // the JSON library rejected the text
    | ElementFailed                         // "failed to unmarshal Element"
    | ProcessingFailed                      // "failed to unmarshal Processing"
    | ProcessingKindFailed(cause: Error)    // "... failed to unmarshal ProcessingKind: %v"
    | CacheFailed                           // "failed to unmarshal Cache"
    | CacheLevelFailed(cause: Error)        // "... failed to unmarshal CacheLevel: %v"
    // tree queries
    | TreeNil                               // "Tree is nil"
    | TreeEmpty                             // "Tree is empty"
    | InvalidNodeID(id: nat)                // "Invalid NodeID %d"
    | NoParent                              // "Root element does not have a parent"
}
