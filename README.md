# Product-creation saga of go-micro-auth, modelled in Dafny

This project models the part of go-micro-auth where product creation runs as a saga.

- **Product side.** The product service writes a new product inside a MongoDB transaction. It then publishes a `product-created` event to the `product` Kafka topic and starts a listener on the `inventory` topic. When that listener sees `inventory-created-failed`, it parses the product id and rolls the product back.
- **Inventory side.** The inventory service consumes the `product` topic and dispatches on the message key. It inserts an inventory record with version 1 and publishes `inventory-created-failed` when the insert fails.
- **Inventory update.** Inventory records are updated by a version-checked find-and-update.

## State

The two MongoDB collections (`Products` and `Inventories`) are maps from `_id` to record. Each is held by its repository class (`ProductRepository.ProductRepository`, `InventoryRepository.InventoryRepository`), whose methods reassign the map.

The Kafka broker (`Kafka.Broker`) holds one append-only log per topic. A `Consumer.Reader` keeps a fetch offset and a committed offset into one log.

A `Mongo.Client` records the session calls `Transaction` makes.

The two queue handlers keep a ghost record of the messages their consumer callbacks received and how each call ended.

## Environment

Everything the program gets from outside is a parameter:

- driver and broker faults;
- the ObjectID the driver generates for an insert;
- the decoder's verdict on a payload;
- the sequence of fetch errors;
- the stack depth left for a recursion.

The modules follow the source files:

| module | source |
|---|---|
| `Kafka` | topics, broker logs, producer |
| `Consumer` | `pkg/kafkaCon/consumer.go` |
| `Codec` | `utils/serialize.go`, with `json.Marshal` written out for the values the saga serialises |
| `ObjectIds` | `primitive.ObjectID` hex conversions |
| `Mongo` | `utils/mongodb.go`, plus the driver's insert and delete |
| `ProductRepository`, `InventoryRepository` | the two repositories |
| `ProductUsecase`, `InventoryUsecase` | the two use cases |
| `ProductService` | the product queue service |
| `ProductQueue`, `InventoryQueue` | the two queue handlers |
| `Listeners` | the two consumer entry points |
| `Saga` | the steps chained from one side to the other |

## What the model shows about the code as written

These behaviours follow from the code as written. They are stated as contracts, not repaired:

- **The consumer stops early.** `ConsumeMessages` returns after the first fetched message, so each consumer handles at most one message. A new reader starts at offset 0, so it handles the first message ever written to the topic.
- **Keys never match.** Both events are sent with the JSON serialisation of the key, which is the key in quotes. Both handlers compare against the bare constant, so neither ever acts on the other side's event (`Saga.ProductCreatedEventIsIgnored`, `Saga.FailureEventNeverCompensates`).
- **`AddInventoryWithTransaction` always returns a nil record.** The closure binds a new, shadowing `newInventory`.
- **The insert error is lost.** After a failed insert, the responder returns the shadowed publish error, which is nil once the failure event is out.
- **`ProductUsecase.RollbackProduct` calls itself and never reaches the repository.** No compensation ever returns or changes the product store.
- **No decoded payload is ever used.** Both handlers hand a nil pointer to `json.Unmarshal`, which then always fails. The model keeps the decoder's verdict as an input, so the branches after decoding are modelled too.
- **The lookup never matches.** `FindOneInventoryByProductId` filters the ObjectID field `product_id` with a string, so it never finds a record.
- **The driver does not write the id back.** The non-transactional creates return the record with the zero ObjectID, because the driver does not write the generated `_id` back.
- **A failed insert in `CreateProductWithTransaction` panics.** The closure reads the inserted id from a nil result, which Go reports as a panic; the model makes this the error `ErrNilDereference`.
- **Inserts run outside the session.** Both inserts use the outer context, not the session context. A failed commit is reported, but the record stays.
- **The failure event uses the field name.** The struct tag of `AddInventoryFailedEvent.ProductID` is malformed, so the payload key is the Go field name `ProductID`.

## Model

| member | source | states |
|---|---|---|
| Consumer.DecodeMessage | pkg/kafkaCon/consumer.go:59-71 | success exactly when the value is non-empty and the decoder accepts it; every failure is the one fixed "failed to decode message" error |
| Consumer.Reader.constructor | pkg/kafkaCon/consumer.go:24-33 | a new reader on a topic starts at offset 0 with nothing committed |
| Consumer.Reader.FetchMessage | pkg/kafkaCon/consumer.go:38 | an error moves nothing; otherwise the message at the current offset is returned and the offset advances by one, or nothing is there yet |
| Consumer.Reader.CommitMessages | pkg/kafkaCon/consumer.go:51 | the committed offset moves past the message and never backwards; the fetch offset is unchanged |
| Consumer.Reader.ConsumeMessages | pkg/kafkaCon/consumer.go:36-54 | fetch errors call no handler and commit nothing; the first fetched message is handed to the handler exactly once; it is committed once the handler returns, whatever the handler returned; the call ends after that one message and reports the handler's result |
| Mongo.TransactionSteps | utils/mongodb.go:13-35 | a failed session start makes no other call; StartTransaction happens iff the session started; fn runs iff both start; abort happens iff fn returned an error and commit iff fn returned nil, so a panicking fn gets neither; a started session ends with EndSession |
| Mongo.SessionEndedOnce | utils/mongodb.go:21-33 | a started session is ended exactly once, and abort or commit never precedes the run of fn |
| Mongo.TransactionResult | utils/mongodb.go:17-33 | a failed session start or transaction start returns that error without running fn; a failed fn returns fn's error, and a panicking fn its cause; otherwise the commit's result is returned; fn's writes are kept whenever fn ran |
| Mongo.Client.Transaction | utils/mongodb.go:13-35 | appends exactly the session calls of TransactionSteps and returns TransactionResult |
| Mongo.InsertOne | modules/product/repository/product.go:61-64 | the insert succeeds iff there is no fault and the id is new; success adds exactly that document; failure changes nothing |
| Mongo.DeleteOne | modules/product/repository/product.go:76 | without a fault, DeletedCount is 1 iff the id is present, and the document is removed |
| Mongo.DeleteById | modules/product/repository/product.go:76-86 | success iff there is no fault and the id is present; it removes exactly that id and keeps every other record; a missing id gives the not-found error and no change |
| ProductRepository.Created | modules/product/repository/product.go:41-68 | success iff there is no fault and the generated id is new; it stores the request's fields under the new id (`FromRequest`, the field copy the source writes out); it returns them with the zero id; failure returns no product and changes nothing |
| ProductRepository.CreatedInTransaction | modules/product/repository/product.go:89-119 | the product persists iff fn ran and the insert succeeded, even if the commit fails; error-free iff the commit also succeeded; the returned product carries the inserted id; a failed insert gives the nil-dereference error |
| ProductRepository.InsertNewProduct | modules/product/repository/product.go:96-115 | the closure stores the request's product (`FromRequest`, the field copy at lines 96-104) under the new id and returns nil when the insert succeeds; a failed insert stores nothing, leaves no product and panics with the nil dereference at line 112 |
| ProductRepository.ProductRepository.CreateProduct | modules/product/repository/product.go:41-68 | the new store, product and error are those of Created |
| ProductRepository.ProductRepository.RollbackProduct | modules/product/repository/product.go:70-87 | success iff there is no fault and the id is present; success removes that id only; an absent id returns "product not found" and changes nothing |
| ProductRepository.ProductRepository.CreateProductWithTransaction | modules/product/repository/product.go:89-119 | the result is CreatedInTransaction; the session calls are those of Transaction: a normal return after a successful insert, a panic (no abort) after a failed one |
| ProductRepository.ProductRepository.RemoveProduct | modules/product/repository/product.go:121-140 | the same delete as RollbackProduct, with the not-found message "no product found with the given ID" |
| ProductRepository.ProductRepository.Delete | modules/product/repository/product.go:76-86 | the store and error are those of DeleteById |
| ProductRepository.ProductRepository.constructor | modules/product/repository/product.go:31-35 | the repository holds the client and the collection as given |
| InventoryRepository.NewInventory | modules/inventory/repository/inventory.go:50-56 | the record has the request's product id and quantity and version 1 |
| InventoryRepository.Added | modules/inventory/repository/inventory.go:43-64 | success iff there is no fault and the generated id is new; it adds exactly one version-1 record; failure returns no record and the error and changes nothing |
| InventoryRepository.AddedInTransaction | modules/inventory/repository/inventory.go:66-93 | the returned record is nil on every path; the record persists iff fn ran and the insert succeeded; a failed session or transaction start returns that error; an insert fault or a taken id returns the insert's error; after a successful insert the commit's result is returned |
| InventoryRepository.InsertNewInventory | modules/inventory/repository/inventory.go:73-90 | the closure never panics; it returns nil exactly when there is no fault and the id is new, and then adds exactly the version-1 record; otherwise it changes nothing |
| InventoryRepository.StringFilterNeverMatches | modules/inventory/repository/inventory.go:101-103 | a string filter on the ObjectID field `product_id` matches no record, under BSON equality (`ProductIdMatches`: values of different BSON types are never equal) |
| InventoryRepository.UpdatedOne | modules/inventory/repository/inventory.go:113-141 | success iff there is no fault and the id is present with the given version; only that record changes, to quantity `amount` and version+1; that record is returned; otherwise nothing changes and the error is returned (no document when the id is unknown or the version is stale) |
| InventoryRepository.SameVersionUpdatesConflict | modules/inventory/repository/inventory.go:122-133 | after a successful update, a second update expecting the same version fails and changes nothing |
| InventoryRepository.AddTwiceLeavesTwoRecords | modules/inventory/repository/inventory.go:43-64 | two adds of the same request leave two records with that product id |
| InventoryRepository.InventoryRepository.AddInventory | modules/inventory/repository/inventory.go:43-64 | the new store, record and error are those of Added |
| InventoryRepository.InventoryRepository.AddInventoryWithTransaction | modules/inventory/repository/inventory.go:66-93 | the result is AddedInTransaction; the session calls are those of Transaction with the insert's verdict |
| InventoryRepository.InventoryRepository.FindOne | modules/inventory/repository/inventory.go:101-107 | without a fault, a record is found iff one matches the filter, and the one found matches; otherwise the error is no-documents |
| InventoryRepository.InventoryRepository.FindOneInventoryByProductId | modules/inventory/repository/inventory.go:95-111 | never returns a record; the error is the driver fault or no-documents |
| InventoryRepository.InventoryRepository.UpdateInventory | modules/inventory/repository/inventory.go:113-141 | the new store, record and error are those of UpdatedOne |
| InventoryRepository.InventoryRepository.RemoveInventory | modules/inventory/repository/inventory.go:143-162 | success iff there is no fault and the id is present; success removes that id only; an absent id gives "no product found with the given ID" and changes nothing |
| InventoryRepository.InventoryRepository.constructor | modules/inventory/repository/inventory.go:32-37 | the repository holds the client and the collection as given |
| ProductUsecase.ProductUsecase.CreateProduct | modules/product/useCase/product.go:28-30 | the use case's result is the repository's CreateProduct result on the unchanged request |
| ProductUsecase.ProductUsecase.CreateProductWithTransaction | modules/product/useCase/product.go:32-34 | the use case's result and session calls are those of the repository's transactional create, including the panic path without an abort |
| ProductUsecase.ProductUsecase.RollbackProduct | modules/product/useCase/product.go:36-38 | the self-call never returns, for any stack depth, and nothing is modified |
| ProductUsecase.ProductUsecase.constructor | modules/product/useCase/product.go:22-26 | the use case holds the repository it is given |
| InventoryUsecase.ToInt32 | modules/inventory/useCase/inventory.go:42 | Go's int32 conversion: the result is in the int32 range, equals the input when it fits, and agrees with it modulo 2^32 |
| InventoryUsecase.ToInventoryInfo | modules/inventory/useCase/inventory.go:39-46 | both id fields parse back to the record's ids; the version is copied; the quantity is the int32 conversion of the record's, so it equals it when it fits in 32 bits and wraps around otherwise |
| InventoryUsecase.InfoOf | modules/inventory/useCase/inventory.go:60-67 | a message is built iff a record is present, by the same mapping as AddInventoryProto |
| InventoryUsecase.InventoryUsecase.AddInventory | modules/inventory/useCase/inventory.go:28-30 | the repository's AddInventory result, unchanged |
| InventoryUsecase.InventoryUsecase.AddInventoryProto | modules/inventory/useCase/inventory.go:32-50 | a failed insert returns the repository error and no message; success returns the mapped message of the record returned, whose id is the hex of the zero id, with version 1 |
| InventoryUsecase.InventoryUsecase.FindOneInventoryByProductIdProto | modules/inventory/useCase/inventory.go:52-71 | the lookup error is passed through unchanged, and no message is ever built |
| InventoryUsecase.InventoryUsecase.constructor | modules/inventory/useCase/inventory.go:22-26 | the use case holds the repository it is given |
| ProductService.Compensation | modules/product/service/queue.go:40-74 | a key other than `inventory-created-failed` gives nil; on that key, a decode error or an invalid hex id is returned before any rollback, and otherwise the rollback never returns; the failure key never gives nil |
| ProductService.ProductQueueService.HandleInventoryEvent | modules/product/service/queue.go:40-52 | the outcome is Compensation of the message |
| ProductService.ProductQueueService.HandleInventoryCreatedFailedEvent | modules/product/service/queue.go:54-74 | the outcome is Compensation of the message under the failure key |
| ProductService.ProductQueueService.constructor | modules/product/service/queue.go:28-33 | the service holds the use case it is given |
| ProductQueue.ProductCreatedMessage | modules/product/handler/queue.go:62-77 | the key is `product-created` in JSON quotes and differs from the bare constant; the payload is `{"product_id":"<hex id>","quantity":<n>}` |
| ProductQueue.ProductQueueHandler.CreateProduct | modules/product/handler/queue.go:50-85 | a failed create publishes nothing, returns its error and starts no listener; otherwise exactly one product-created message is appended and the listener starts; if instead the publish fails, its error is returned and the product stays |
| ProductQueue.ProductQueueHandler.PublishCreated | modules/product/handler/queue.go:58-79 | one message with the serialised key and payload is appended to the product topic, or the publish error is returned and nothing is appended |
| ProductQueue.ProductQueueHandler.HandleMessage | modules/product/handler/queue.go:92-116 | the listener closure's outcome is Compensation of the message, and the call is recorded |
| ProductQueue.ProductQueueHandler.constructor | modules/product/handler/queue.go:32-43 | the handler holds the use case and the broker, and has handled no message |
| InventoryQueue.InventoryCreatedFailedMessage | modules/inventory/handler/queue.go:66-82 | the key is `inventory-created-failed` in JSON quotes and differs from the bare constant; the payload is `{"ProductID":"<hex id>"}` |
| InventoryQueue.Responded | modules/inventory/handler/queue.go:52-95 | a key other than `product-created` or a decode failure changes nothing (the latter returns the error); logs only grow; a decoded request goes on to Reserved |
| InventoryQueue.Reserved | modules/inventory/handler/queue.go:63-91 | the insert is made once; success returns nil and publishes nothing; failure appends exactly one failure event to the inventory topic and returns the publish error, not the insert error |
| InventoryQueue.InventoryQueueHandler.HandleMessage | modules/inventory/handler/queue.go:52-95 | the responder closure's effect on the records and logs, and its error, are Responded; the call is recorded |
| InventoryQueue.InventoryQueueHandler.Reserve | modules/inventory/handler/queue.go:63-91 | the decoded branch's effect is Reserved |
| InventoryQueue.InventoryQueueHandler.constructor | modules/inventory/handler/queue.go:26-31 | the handler holds the use case and the broker, and has handled no message |
| Listeners.CreateInventory | modules/inventory/handler/queue.go:45-104 | the responder consumes the product topic; it handles its first message, or is still waiting on an empty topic; the effect is Responded |
| Listeners.HandleInventoryResponse | modules/product/handler/queue.go:87-126 | the listener consumes the inventory topic and handles its first message with outcome Compensation; the product store is untouched |
| Kafka.Producer.Produce | pkg/kafkaCon/producer.go:33-38 | either exactly one `{key, value}` message is appended to the producer's topic, or the writer's error is returned and nothing is appended |
| Kafka.Producer.constructor | pkg/kafkaCon/producer.go:23-31 | a producer is bound to the broker and to one topic |
| Kafka.Appended | pkg/kafkaCon/producer.go:34-37 | the topic's log gains the message at its end; every other topic is unchanged; logs only grow |
| Kafka.EventKeyIsPlain | pkg/kafkaCon/topics.go:4-11 | every event name is copied unchanged into a JSON string |
| Codec.Deserialize | utils/serialize.go:15-25 | empty input gives "no data to deserialize"; other input gets the decoder's verdict |
| Codec.EscapeChar | utils/serialize.go:11-13 | `json.Marshal` copies a character unchanged or writes an escape sequence starting with a backslash; quote, backslash and control characters are always escaped |
| Codec.Escape | utils/serialize.go:11-13 | the escaped text is never shorter than the string, and is the string itself when no character needs escaping |
| Codec.SerializeString | utils/serialize.go:11-13 | a serialised string is quoted, never equal to the string itself, and exactly the string in quotes when it needs no escapes |
| Codec.SerializeProductCreated | modules/product/model/product.go:32-35 | the payload's keys are `product_id` and `quantity` |
| Codec.SerializeInventoryCreatedFailed | modules/inventory/model/inventory.go:24-26 | the payload's key is the field name `ProductID` |
| Codec.Decimal | modules/product/handler/queue.go:64-67 | the quantity is written with a minus sign exactly when it is negative, followed by digits whose value is its magnitude |
| Codec.Digits | modules/product/handler/queue.go:64-67 | the digits of a number denote that number and have no leading zero |
| ObjectIds.DecodeHex | modules/product/handler/queue.go:103 | decoding bytes succeeds iff there is an even number of them and all are hex digits, and yields half as many bytes |
| ObjectIds.ObjectIdFromHex | modules/product/handler/queue.go:103 | parsing succeeds iff the string is 24 hex digits; a length in UTF-8 bytes other than 24 is the invalid-hex error |
| ObjectIds.Utf8Char | modules/product/handler/queue.go:103 | the bytes Go holds for a character: one byte for ASCII, otherwise two to four bytes that are all 0x80 or above |
| ObjectIds.Utf8 | modules/product/handler/queue.go:103 | Go's `[]byte(s)`, whose length is `len(s)`: never shorter than the string, and one byte with the same value per character when every character is ASCII |
| ObjectIds.Utf8Hex | modules/product/handler/queue.go:103 | a string's bytes are all hex digits iff its characters are, and then there is one byte per character |
| ObjectIds.NonAsciiIsInvalidHex | modules/product/handler/queue.go:103 | 24 characters that are not all ASCII fail with the invalid-hex error, because `len` counts bytes |
| ObjectIds.FormatRune | modules/product/handler/queue.go:103 | for every byte, the `%#U` form is `U+00` and two upper-case hex digits whose value is the byte, then the character in single quotes exactly when `strconv.IsPrint` holds for it (`IsPrintLatin1`: 0x20-0x7E, or 0xA1-0xFF except 0xAD) |
| ObjectIds.InvalidByte | modules/product/handler/queue.go:103 | for every byte, the `hex.InvalidByteError` message is `encoding/hex: invalid byte: U+00`, two upper-case hex digits whose value is the byte, and the quoted character exactly when it is printable |
| ObjectIds.InvalidByteMessage | modules/product/handler/queue.go:103 | two messages written out in full: `U+0067 'g'` for the letter g and `U+00C3` with the character for the Latin-1 byte 0xC3 |
| ObjectIds.EncodeHex | modules/product/handler/queue.go:63 | two lower-case hex digits per byte |
| ObjectIds.Hex | modules/inventory/handler/queue.go:67 | an id's hex form is 24 hex digits |
| ObjectIds.DecodeEncodeHex | modules/product/handler/queue.go:63 | decoding the bytes of the hex text undoes encoding |
| ObjectIds.ObjectIdFromHexOfHex | modules/inventory/handler/queue.go:67 | an id written into a payload as hex parses back to the same id |
| ObjectIds.HexInjective | modules/product/handler/queue.go:63 | distinct ids have distinct hex forms |
| Saga.ProductCreatedEventIsIgnored | modules/inventory/handler/queue.go:53-57 | the responder changes nothing and returns nil on the event the product side publishes |
| Saga.FailureEventNeverCompensates | modules/product/handler/queue.go:94-97 | the listener returns nil on the failure event the responder publishes, so it never rolls back |
| Saga.PublishOnEmptyTopic | modules/product/handler/queue.go:53-81 | on a successful create, an empty product topic ends up holding exactly the product-created event, and the product is stored |
| Saga.ReserveOnlyEvent | modules/inventory/handler/queue.go:45-95 | a responder whose topic holds one message with a non-matching key handles it, returns nil and records nothing |
| Saga.FailOnEmptyTopic | modules/inventory/handler/queue.go:63-86 | after a failed insert and a successful publish, the empty inventory topic holds exactly the failure event and nil is returned |
| Saga.CompensateOnlyEvent | modules/product/handler/queue.go:87-116 | a listener whose topic holds one message with a non-matching key handles it with nil and leaves the products alone |
| Saga.RollbackTwice | modules/product/repository/product.go:70-87 | a second rollback of the same id returns "product not found" |

## Left out

- Time stamps (`CreatedAt`, `UpdatedAt`, `time.Now`, RFC 3339 formatting) are not modelled: the saga never reads them.
- Context timeouts and cancellation are not modelled.
- `Price` is a `float64` that the saga only copies, so the model keeps it as its 64 bits.
- `json.Unmarshal` of the payloads is not modelled. Its verdict is an input of every handler. In the code the target is a nil pointer, so that verdict is always an error.
- `json.Marshal` errors are not modelled: it cannot fail on the values the saga serialises, so the error branches after `Serialize` are not modelled.
- Go `int`, `int64` and Mongo's stored integers are unbounded here. Only the `int32` conversion of the protobuf message is written out (`InventoryUsecase.ToInt32`).
- The goroutine that starts the compensation listener is a separate step here, `Listeners.HandleInventoryResponse`. `ProductQueue.ProductQueueHandler.CreateProduct` reports only whether it would be started.
- Concurrency between the two services is not modelled.
- The blocking `FetchMessage` is not modelled: an empty topic gives `StillFetching` instead of blocking.
- Fetch errors are a finite sequence: an endless run of errors, which loops forever in Go, is not modelled.
- Consumer.Reader.CommitMessages: a kafka-go reader without a consumer group refuses commits, and the code ignores that error. The model advances the committed offset as the code intends.
- `Close` on producers and consumers is not modelled, and neither are the logging calls.
- The `AbortTransaction` error is discarded by the code and is not modelled.
- Errors the MongoDB server reports (the duplicate-key write error) carry only the code and name the server starts its text with (`E11000 duplicate key error`), not the collection, index and key that follow, nor the driver's `write exception` wrapping.
- ProductQueue.ProductQueueHandler.constructor: the configuration (broker addresses) and the `productQueueService` field are not kept. No modelled operation reads the service field: the listener's closure repeats that logic.
- ProductUsecase.ProductUsecase.RollbackProduct: the endless self-call is modelled by a stack-depth parameter; every depth ends in `Diverged`, standing for Go's stack overflow.
- A Go panic (the nil `InsertResult` in `CreateProductWithTransaction`) is not modelled as a crash of the process. Its session calls are the ones Go makes: no abort, and the deferred `EndSession`. After that the panic is the error `ErrNilDereference`, returned to the caller with no product.
- `UpdateInventory` sets the quantity as a plain field next to `$inc`. Whether the server accepts that update document is not modelled; the model applies the intended set-and-increment.
- The `Decode` error after a successful `FindOneAndUpdate` is not modelled.
- `utils.DecodeMessage` in utils/serialize.go is not part of this model: the saga uses neither it nor its validation step.
- ProductQueue.ProductQueueHandler.CreateProduct: the session calls its transaction makes are not stated at this level; they are stated on the use case and the repository.
- The gRPC, HTTP and route layers that call these handlers, and the auth, user and configuration code, are not part of this model.
