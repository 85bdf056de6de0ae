# Verified model of the AI inference platform

This Dafny project models the parts of the platform whose behaviour is hard to see from one
function, and proves what they guarantee over whole runs:

- **Rate limiting** (`TokenBucket`, `BucketTheorems`, `BucketRefinement`, `RateLimiter`): the two Lua
  scripts over a Redis hash that is refilled lazily, written on admission only and dropped after 120
  seconds, the Python class around them and the two routes that choose a bucket. Main results: exact
  admission, greedy optimality, the window bound, refinement of a bucket that never forgets, exact
  retry times, and that the rate-limit page predicts the next completion.
- **Streaming** (`CodeUnits`, `Json`, `JsonGrammar`, `StreamService`, `StreamClient`, `StreamFidelity`,
  `StreamMeaning`): the service turns Ollama's lines into server-sent events, the client reads them
  from arbitrary network chunks. The parser accepts exactly the grammar of RFC 8259 and reads back all
  that `json.dumps` writes; `StreamMeaning` says what lines and frames mean, on their texts.
- **Chat store** (`ChatState`, `ChatTheorems`, `ChatOutcomes`, `ChatStore`, `EndToEnd`): every action,
  callback, change of user and reload is one step; the theorems hold for every interleaving.
  `EndToEnd` joins the stream to the store: what was heard of Ollama's answer is what the chat keeps,
  whole or stopped.
- **Markdown** (`InlineMarkdown`, `BlockMarkdown`): the inline parser is the inverse of a printer on
  exactly the trees it builds; the block parser partitions the lines, fences pair up, and every line
  becomes the element its shape calls for.
- **Credentials** (`Accounts`, `Credentials`, `ServiceOutcomes`, `Database`, `KeyListing`, `Witnesses`):
  API keys, accounts, roles, memberships, one-shot tokens and sessions over the tables of users, keys and organisations,
  from the seeding of the super admin on; `Witnesses` holds runs that show what fails.

Each imperative part is a method or a class whose methods are proved equal to a specification
function; the theorems are about those functions. `TokenBucket`, `ChatState` and `Accounts` hold the
specification functions, `RateLimiter`, `ChatStore` and `Database` the classes. What a specification
function decides is stated a second time without it, on texts, roles, times and positions:
`StreamMeaning`, `ChatOutcomes`, `ServiceOutcomes` and the exact lemmas of the other modules do that.
Automatic induction is switched off on every lemma.

Three things the code does not do, each with its exact condition and a run that shows it:

- A bucket saved on every call is *not* equivalent to the lazy one when the limit changes after denied
  calls. `BucketRefinement.RefinementExact` says for which runs the two agree, and
  `BucketRefinement.LimitChangeChangesDecision` is a run from no hash that they decide differently.
  Expiry alone is invisible whatever the limits.
- Requirement FR-007 of the unified authentication feature wants a password reset to end all sessions.
  The code ends none (`Credentials.ResetEndsNoSession`, with the run `Witnesses.SessionSurvivesReset`).
- A caller's key list and the keys the caller may manage differ in one reachable case, the caller's own
  keys of another organisation (`KeyListing.ListedIffManageable`, with the run
  `Witnesses.OwnKeyElsewhereHappens`).

The docstring of `invite_user` says that an organisation administrator can invite team leads and
users; the code also lets one invite organisation administrators, and the model follows the code.

Assumptions: generated ids, keys and tokens are new; SHA-256 and bcrypt are injective; signed session
tokens cannot be forged; Redis's expiry clock and the caller's clock are one; every stored limit is at
least 1, as the request schemas demand; rows are created in `created_at` order; a comparison of a
column with None selects the rows without a value, as SQLAlchemy's `IS NULL` does.

## Model

Results come first. The rows from `RateLimiting.RateLimiter.RunCheckScript` on are no results of
their own: they are the methods in the code's own form, whose contracts equate result and new state
with the specification functions that the results are about, and so carry them to the loops and
classes.

| member | source | states |
|---|---|---|
| `BucketTheorems.EvictionInvisible` | backend/app/core/rate_limiter.py:16-29 | Dropping the hash 120 s after the last admission never changes the level a call sees, whatever limit that call brings |
| `BucketTheorems.WindowBound` | backend/app/core/rate_limiter.py:20-30 | With no limit above R and a clock that does not go back, any window of calls over d seconds admits at most R + R·d/60 |
| `BucketTheorems.SkewedClockWindowBound` | backend/app/core/rate_limiter.py:20-28 | With a fixed limit R and no expiry the bound R + R·d/60 holds over the d seconds between first and last admission when callers' clocks disagree |
| `BucketTheorems.EmptyBucketRefills` | backend/app/core/rate_limiter.py:13-29 | An emptied bucket holds R·s/60 tokens after s seconds, is full again from exactly sixty seconds on, and its hash stays for 120 seconds |
| `BucketRefinement.RefinementExact` | backend/app/core/rate_limiter.py:16-30 | For every run, with any denials in a row and any clocks: the lazy, evicted bucket shows the level of one saved on every call and never evicted at each call if and only if what denied calls earned at their own limits never shows at another limit; and then every reply is the same |
| `BucketRefinement.LazyRefinesSaved` | backend/app/core/rate_limiter.py:16-30 | In particular every reply (decision, remaining, retry) is that of the saved bucket if the limit stays the same from a denied call to the next |
| `BucketRefinement.LimitChangeAfterDenial` | backend/app/core/rate_limiter.py:20-30 | The case of one denied call after an admission: agreement exactly when the limit is unchanged, no time had passed, or the bucket is full either way |
| `BucketRefinement.LimitChangeChangesDecision` | backend/app/core/rate_limiter.py:20-30 | A run from no hash (admitted at 1 rpm, denied at 600, then 60) whose last call the saved bucket admits and the lazy one refuses |
| `BucketRefinement.GreedyIsOptimal` | backend/app/core/rate_limiter.py:16-30 | After every prefix of any run on which no change of limit after denied calls shows (the condition of `RefinementExact`) the limiter has admitted at least as many requests as any other choice respecting the same bucket |
| `BucketRefinement.ExactAdmission` | backend/app/core/rate_limiter.py:10-30 | From a full bucket a run is admitted in full if and only if every window i..j has j-i+1 <= rpm + rpm·(t_j - t_i)/60 |
| `RateLimiting.RetryIsExact` | backend/app/core/rate_limiter.py:20-25 | With no admission in between, a check k whole seconds after a denial succeeds if and only if k is at least the reported retry time |
| `RateLimiting.RetryWithinAMinute` | backend/app/core/rate_limiter.py:23-25 | The retry time is at least 1, and at most 60 when the clock has not gone back |
| `RateLimiting.WholeTokens` | backend/app/core/rate_limiter.py:93-97 | Scaling by 1000, flooring and truncating reports the floor of the tokens, and a debt rounded up |
| `RateLimiting.PeekPredictsCheck` | backend/app/core/rate_limiter.py:38-50 | The limit is the one asked for; reset 0 exactly when a check would be admitted; the admitted check reports one less; a refused one reports peek's reset |
| `RateLimiting.PeekAfterCheck` | backend/app/core/rate_limiter.py:114-121 | A peek right after a check reports one token less if it was admitted and the same if not |
| `RateLimiting.PageThenCompletion` | backend/app/modules/auth/router.py:66-98 | Rate-limit page, then completion: admitted exactly when the page showed reset 0, and the page's count falls by one; a refusal changes nothing |
| `RateLimiting.LimitPriority` | backend/app/modules/inference/router.py:36-56 | An API key has its own bucket and limit; a session its user's bucket at the user's limit, else the organisation's, else the default; a test header the nearest limit from 1 to 1000 and a bucket apart |
| `JsonText.ParseDumps` | backend/app/modules/inference/service.py:181 | `JSON.parse` reads back every value that `json.dumps` writes |
| `JsonText.ParsedIsPrintable` | backend/app/modules/inference/service.py:164-181 | Whatever was parsed can be printed, so the round trip covers every value that a line of Ollama carries |
| `JsonGrammar.ParseIsGrammar` | backend/app/modules/inference/service.py:164 | A text is read as a value if and only if the grammar of RFC 8259 derives it with that value: syntax trees with all white space, escapes and number forms |
| `JsonText.DumpsIsAsciiLine` | backend/app/modules/inference/service.py:181 | No printed value contains a raw newline or anything outside printable ASCII |
| `StreamClient.LinesAppend` | frontend/src/api/inference.ts:87-93 | Reading more text keeps the complete lines and continues from the unfinished rest |
| `StreamClient.OneTerminalCall` | frontend/src/api/inference.ts:51-118 | Every run makes exactly one terminal call, and it is the last |
| `StreamClient.CutEmitsPrefix` | frontend/src/api/inference.ts:77-111 | A text cut anywhere emits a prefix of the chunks of the whole |
| `StreamFidelity.StreamFidelity` | backend/app/modules/inference/service.py:160-217 | For every answer and every cutting into chunks the client's calls are the truthy contents up to the first done line, in order, then one terminal call |
| `StreamFidelity.CutStreamFidelity` | frontend/src/api/inference.ts:77-118 | If the wire is cut anywhere the chunks are a prefix of those contents |
| `StreamFidelity.HeardIsSaid` | frontend/src/api/inference.ts:101-104 | The concatenated chunk texts equal the concatenated truthy contents, however contents that are no strings are converted |
| `StreamFidelity.WireIsAscii` | frontend/src/api/inference.ts:76-87 | Everything on the wire is printable ASCII or a newline, so bytes decode alike wherever they are cut |
| `StreamMeaning.EveryLine` | backend/app/modules/inference/service.py:160-169 | Every line of Ollama is silent (empty or no JSON), raises (no object, or a message that is none), or says a content, an end mark and a reason |
| `StreamMeaning.PrintedLineSays` | backend/app/modules/inference/service.py:168-179 | A printed object whose last message, content, done and done_reason members (or their defaults) are m, v, d and r is a line that says v, d and r |
| `StreamMeaning.LineBecomesFrame` | backend/app/modules/inference/service.py:168-213 | A line that says v, d, r yields one frame whose JSON has v as content and the id, model and role at their places; a truthy d makes r its finish_reason and ends the stream with [DONE], otherwise finish_reason is null and the rest follows |
| `StreamMeaning.OtherLines` | backend/app/modules/inference/service.py:160-217 | Silent lines yield nothing; a line that raises, and a connection that breaks, end the stream without [DONE] |
| `StreamMeaning.ToldIsCalled` | frontend/src/api/inference.ts:77-110 | For lines that tell some contents, under any cutting of the wire, onChunk is called with the truthy contents in order and then the one terminal call is made |
| `StreamMeaning.LineIsHeeded` | frontend/src/api/inference.ts:92-108 | A line stops the client exactly when it is `data: [DONE]` up to white space, and hands over v exactly when it is a data line with JSON whose choices[0].delta.content is v, truthy |
| `StreamMeaning.LinesRejoin` | frontend/src/api/inference.ts:87-93 | The complete lines and the unfinished rest, joined, are the text, and none holds a newline |
| `StreamMeaning.LastCall` | frontend/src/api/inference.ts:97-118 | The last call is onError, with the message, exactly when reading failed before any [DONE] line; after an abort or the end it is onDone |
| `ChatTheorems.ReachableStates` | frontend/src/store/chatStore.ts:87-386 | In every reachable state: conversations start with the user and never hold two replies in a row; ids are unique; titles are truncations of the first message; at most one stream, locked exactly while it runs; the history sent is the history stored; what is displayed belongs to its owner |
| `ChatTheorems.RunKeepsCurrent` | frontend/src/store/chatStore.ts:102-125 | The current id is null or names an existing session in every run whose selections do |
| `ChatOutcomes.SelectionSelects` | frontend/src/store/chatStore.ts:102-110 | The selected chat becomes the current one; no chat, no stream and no other user's choice changes |
| `ChatOutcomes.SendGoesToSelected` | frontend/src/store/chatStore.ts:102-186 | A message sent after selecting an existing chat goes to that chat with its history, and no other chat changes |
| `ChatOutcomes.NewChatIsCurrent` | frontend/src/store/chatStore.ts:87-100 | A new chat is empty, titled New Chat, first in the list and current; the display is cleared, the call in flight goes on |
| `ChatOutcomes.DeletionMovesOn` | frontend/src/store/chatStore.ts:112-125 | The other chats stay in order; if the deleted one was current the first that is left becomes current, or none; otherwise the current one stays |
| `ChatOutcomes.StopAborts` | frontend/src/store/chatStore.ts:127-134 | A stop leaves an aborted controller and changes nothing else |
| `ChatOutcomes.SendStarts` | frontend/src/store/chatStore.ts:136-186 | A send takes the lock with a fresh controller and an empty display, sends the current chat and the message, and titles a chat by its first message, forty units and an ellipsis |
| `ChatOutcomes.EditStarts` | frontend/src/store/chatStore.ts:305-350 | An edit does the same with the chat up to the edited message; editing the first message retitles |
| `ChatOutcomes.RetryStarts` | frontend/src/store/chatStore.ts:225-267 | A retry does the same with the chat without a final reply, under its title |
| `ChatOutcomes.NothingToDo` | frontend/src/store/chatStore.ts:225-312 | While a call is in flight, and with nothing to retry or edit, the three actions change nothing |
| `ChatOutcomes.ErrorIsShown` | frontend/src/store/chatStore.ts:218-220 | An error is shown with its message, frees the lock and changes no chat |
| `ChatOutcomes.ReloadKeepsChats` | frontend/src/store/chatStore.ts:410-414 | A reload keeps every user's chats and choices and resets the rest |
| `ChatTheorems.StreamConservation` | frontend/src/store/chatStore.ts:187-217 | Whatever happens while a stream runs, when onDone comes its session holds what was sent plus one reply made of all its chunks (none if blank or after newChat), other sessions are as before, the lock is free |
| `ChatTheorems.TerminalCallReleases` | frontend/src/store/chatStore.ts:193-220 | Either terminal callback frees the lock and clears the display |
| `ChatTheorems.ErrorKeepsSent` | frontend/src/store/chatStore.ts:218-220 | A call that fails leaves its session with what was sent |
| `ChatTheorems.OthersUntouched` | frontend/src/store/chatStore.ts:87-386 | No step changes a session other than the one it targets, of any user |
| `ChatTheorems.DeleteRemoves` | frontend/src/store/chatStore.ts:112-125 | A deletion removes the session it names |
| `ChatTheorems.SendAppends` | frontend/src/store/chatStore.ts:136-186 | A send appends the message to the current or a new chat, starts exactly one stream with that history, and touches nothing else |
| `ChatTheorems.EditRewrites` | frontend/src/store/chatStore.ts:312-346 | An edit cuts the chat before the edited message, puts the new text there and sends that |
| `ChatTheorems.RetryRewrites` | frontend/src/store/chatStore.ts:232-263 | A retry drops a final reply, keeps the rest of the chat and its title, and sends that |
| `ChatTheorems.RetryResendsWhatWasSent` | frontend/src/store/chatStore.ts:225-263 | After a call ended, by either callback, with or without a reply, a retry on its session starts one stream with the very history that was sent |
| `ChatTheorems.RetryAlwaysSends` | frontend/src/store/chatStore.ts:239-241 | In reachable states the two late guards of a retry never fire |
| `EndToEnd.StoredReplyIsWhatWasHeard` | frontend/src/store/chatStore.ts:127-222 | For lines of Ollama that tell some contents and a wire read anywhere short of or up to its end, cut, stopped or complete: the text the store hears is the start of what the contents say, and onDone stores exactly that text as one reply; onError stores none |
| `EndToEnd.StoredReplyIsTheAnswer` | frontend/src/store/chatStore.ts:184-222 | When the whole wire was read and the answer ended well, the reply stored is all the contents of its lines say, for strings their concatenation, under any chunking and interleaving |
| `InlineMarkdown.InlineRoundTrip` | frontend/src/features/chat/components/MessageList.tsx:21-82 | Printing the tree with its delimiters restores the line exactly |
| `InlineMarkdown.InlineParseIsCanonicalTree` | frontend/src/features/chat/components/MessageList.tsx:27-75 | A tree is the parse of a line if and only if it prints that line and is canonical: contents free of their closing delimiter, special units in text only where nothing closes them |
| `BlockMarkdown.SplitJoin` | frontend/src/features/chat/components/MessageList.tsx:17 | Joining restores a text that was split, and no line holds a newline |
| `BlockMarkdown.JoinSplit` | frontend/src/features/chat/components/MessageList.tsx:114 | Splitting restores any non-empty list of newline-free lines that was joined |
| `BlockMarkdown.ElementsPartitionLines` | frontend/src/features/chat/components/MessageList.tsx:84-225 | Elements cover consecutive ranges of all the lines in order; a line that opens code and the lines up to the next fence make one code block with exactly the lines between, any other line makes the element of its kind and text |
| `BlockMarkdown.LineStartsElement` | frontend/src/features/chat/components/MessageList.tsx:107-123 | A line starts an element if and only if an even number of fences stands above it |
| `BlockMarkdown.ElementKeepsText` | frontend/src/features/chat/components/MessageList.tsx:89-221 | An element's content is the canonical tree of a text that, after its marker and indentation, is its line up to a line terminator; an item's text starts with no space, and an indent is half the leading white space |
| `BlockMarkdown.LineKind` | frontend/src/features/chat/components/MessageList.tsx:89-221 | A line that is no fence becomes a heading of level n exactly when it is n <= 3 number signs, a space and a rest; otherwise a bullet item, otherwise a numbered item exactly when it reads as one; otherwise a spacer exactly when it is white space; otherwise a paragraph |
| `BlockMarkdown.UnorderedPattern` | frontend/src/features/chat/components/MessageList.tsx:127 | The bullet pattern matches exactly spaces, a bullet, at least one space and a rest |
| `BlockMarkdown.OrderedPattern` | frontend/src/features/chat/components/MessageList.tsx:162 | The number pattern matches exactly spaces, digits, a dot, at least one space and a rest |
| `Credentials.StepKeeps` | backend/app/modules/users/service.py:26-202 | Every service that writes users or keys keeps both tables consistent (a key is inactive exactly when it has a revocation time, every key has an organisation, ids, hashes, addresses and outstanding tokens are unique, sessions belong to verified users) and never reactivates a key, reuses a secret, reverts a verification or promotes a user to super admin |
| `Credentials.DeadCredentialsStayDead` | backend/app/modules/api_keys/service.py:146-239 | In any run from a consistent state, once a key is rotated, revoked or revoked with its owner's removal, its plaintext never authenticates again, also after the owner is invited back |
| `Credentials.StartsAreGood` | backend/app/db/setup.py:92-108 | The empty tables and those with the seeded super admin are consistent, so what is proved from consistent states holds in every run from either |
| `Credentials.KeyLife` | backend/app/modules/api_keys/service.py:146-239 | At the end of any run the plaintext of a key active at its start authenticates if and only if no step rotated it, revoked it or removed its owner, and its expiry, if any, is still to come |
| `Credentials.AuthenticationExact` | backend/app/modules/api_keys/service.py:222-239 | A key authenticates exactly when an active, unexpired row has its hash, and the lookup never finds two rows |
| `Credentials.InferenceAccessExact` | backend/app/dependencies.py:43-75 | The inference endpoints accept a credential if and only if it is an open session of an active user or the plaintext of an active, unexpired key whose owner is active; every refusal is Unauthorized |
| `Credentials.OneWorkingPlaintext` | backend/app/modules/api_keys/service.py:222-239 | Two credentials that authenticate as the same key id are the same |
| `Credentials.IssuedKeyWorks` | backend/app/modules/api_keys/service.py:67-96 | A plaintext just created or rotated in authenticates as its key if and only if the key is unexpired |
| `Credentials.VerificationNeverReverts` | backend/app/modules/auth/service.py:146-172 | A verified account stays verified in every run |
| `Credentials.SuperAdminsAreSeeded` | backend/app/core/permissions.py:46-128 | At the end of any run every super admin was one at its start or was seeded on the way: no service makes one (requirement FR-010 of the multi-tenancy feature) |
| `Credentials.JwtBranchesAgree` | backend/app/dependencies.py:25-65 | The inference endpoints, which skip the verification check, accept the same sessions as the account endpoints, for the same user: those issued, not past their expiry, whose user is active |
| `Credentials.ResetEndsNoSession` | backend/app/modules/auth/service.py:265-283 | A password reset changes the acceptance of no session, contrary to FR-007 |
| `Witnesses.SessionSurvivesReset` | backend/app/modules/auth/service.py:265-283 | A run from empty tables that the routes allow: register, verify, ask for a reset, reset; the session of the verification is still accepted |
| `Credentials.VerificationExact` | backend/app/modules/auth/service.py:219-236 | A verification token works exactly while a row holds it and at most 24 hours after it was generated |
| `Credentials.ResetExact` | backend/app/modules/auth/service.py:265-281 | A reset token works exactly while a row holds it and at most one hour after it was generated |
| `Credentials.VerificationTokenWorksOnce` | backend/app/modules/auth/service.py:219-244 | After it has worked, a verification token is refused in every later state |
| `Credentials.ResetTokenWorksOnce` | backend/app/modules/auth/service.py:265-283 | After it has worked, a reset token is refused in every later state |
| `Credentials.NewerResetTokenKillsOlder` | backend/app/modules/auth/service.py:256-259 | Asking again kills the older reset token for ever |
| `Credentials.ResetThenLogin` | backend/app/modules/auth/service.py:47-60 | After a reset only the new password logs in, and only an active, verified user |
| `Credentials.VerifiedSessionOpens` | backend/app/modules/auth/service.py:234-244 | The session of a verification opens its holder's account exactly when the account is active |
| `ServiceOutcomes.WhoMayCreateKeys` | backend/app/modules/api_keys/service.py:45-96 | A key for somebody else is created exactly by a super admin, or an administrator or lead of the owner's organisation; the row written, and each error |
| `ServiceOutcomes.WhoMayRotate` | backend/app/core/permissions.py:131-152 | A rotation succeeds exactly when an active row has the id and the caller is a super admin or, in its organisation, an administrator, a lead or the owner; only its hash changes; a refusal changes nothing, with NotFound or Forbidden |
| `ServiceOutcomes.WhoMayRevoke` | backend/app/modules/api_keys/service.py:185-200 | The same of a revocation, with NotFound, Conflict or Forbidden |
| `ServiceOutcomes.WhatAuthenticationWrites` | backend/app/modules/api_keys/service.py:222-239 | Authenticating stamps the row with the hash and writes nothing else |
| `ServiceOutcomes.WhoMayInvite` | backend/app/modules/users/service.py:39-58 | Super admins and administrators invite registered users who are not active members yet, never as super admin; a super admin keeps the role; each error |
| `ServiceOutcomes.WhoMayChangeRoles` | backend/app/modules/users/service.py:123-148 | Super admins and administrators change the role of a member of the organisation, never to super admin; only the role changes |
| `ServiceOutcomes.WhatRemovalWrites` | backend/app/modules/users/service.py:173-202 | A member other than the caller is deactivated and leaves, and exactly his active keys are revoked |
| `ServiceOutcomes.WhatCreatingAnOrgWrites` | backend/app/modules/orgs/service.py:19-40 | A slug is used once; a creator without organisation who is no super admin joins as administrator |
| `ServiceOutcomes.WhatDeletingAnOrgWrites` | backend/app/modules/orgs/service.py:92-123 | An organisation goes exactly when it exists and has no active member, and nobody is left in it |
| `ServiceOutcomes.WhatSeedingWrites` | backend/app/db/setup.py:92-108 | An active, verified super admin is added exactly when the address is free |
| `ServiceOutcomes.WhatRegistrationWrites` | backend/app/modules/auth/service.py:18-45 | An address registers once; the new row is a plain, active, unverified user with the token and its time |
| `ServiceOutcomes.WhoMayLogIn` | backend/app/modules/auth/service.py:47-62 | A login succeeds exactly with the password of an active, verified account, and issues its user a session of 3600 seconds |
| `ServiceOutcomes.LoginOrRegistration` | backend/app/modules/auth/service.py:174-217 | A known address logs in, an unknown one registers without a session |
| `ServiceOutcomes.WhatVerificationWrites` | backend/app/modules/auth/service.py:219-244 | A verification verifies the holder, clears the token and issues the holder a session of 3600 seconds |
| `ServiceOutcomes.WhatForgettingWrites` | backend/app/modules/auth/service.py:246-263 | The answer is the same for every address; a registered one gets the token for 3600 seconds |
| `ServiceOutcomes.WhatResetWrites` | backend/app/modules/auth/service.py:265-283 | A reset changes the holder's password and clears the token, and nothing else |
| `ServiceOutcomes.WhoIsLetIn` | backend/app/dependencies.py:16-41 | Whatever the tables hold, only the active, verified user of an open session is let in |
| `ServiceOutcomes.WhomGoogleVouchesFor` | backend/app/modules/auth/service.py:88-136 | Google's word counts exactly when it knows the account and its address and names this client; without a credential the mock token counts, in development only |
| `ServiceOutcomes.WhoMaySignIn` | backend/app/modules/auth/service.py:138-172 | A stranger becomes a verified user; the one active account with the identity or the address is verified and, unless linked already, linked; an inactive one, and two accounts, are refused |
| `KeyListing.PagesCoverList` | backend/app/modules/api_keys/service.py:139-142 | For any page size enough pages concatenate to the whole list, whose length is the total |
| `KeyListing.PageHoldsItsRows` | backend/app/modules/api_keys/service.py:139-142 | A page holds the next `size` rows of the list in order, or those that are left |
| `KeyListing.ListIsNewestFirst` | backend/app/modules/api_keys/service.py:113-143 | The list shows, later rows first and each once, exactly the active rows that the role admits; a filter narrows the lists of super admins, administrators and leads to one user and is ignored for members |
| `KeyListing.ListingComplete` | backend/app/modules/api_keys/service.py:113-143 | Every active manageable key is on exactly one page of the caller's unfiltered list, callers and keys without an organisation included |
| `KeyListing.ListedIffManageable` | backend/app/core/permissions.py:131-152 | For any caller and active key, with or without organisation: listed if and only if manageable, exactly unless the key is the caller's own in another organisation |
| `KeyListing.ListedIffManageableInRuns` | backend/app/modules/api_keys/service.py:113-143 | In every run a caller's list holds, each once, the active keys the caller may manage and the caller's own keys of another organisation, and each of them has an organisation |
| `Witnesses.OwnKeyElsewhereHappens` | backend/app/modules/users/service.py:48-58 | A run from empty tables that the routes allow, by the seeded super admin and a verified user, shows the case: invited to one organisation, key created, invited to another |
| `RateLimiting.RateLimiter.RunCheckScript` | backend/app/core/rate_limiter.py:9-31 | The script's reply and the new hash are those of the specification, other keys are untouched, stored hashes stay sound |
| `RateLimiting.RateLimiter.RunPeekScript` | backend/app/core/rate_limiter.py:32-51 | The peek script reads the refilled level and writes nothing |
| `RateLimiting.RateLimiter.CheckRateLimit` | backend/app/core/rate_limiter.py:64-100 | Outcome and new store, with the disabled and the fail-closed branch |
| `RateLimiting.RateLimiter.PeekRateLimit` | backend/app/core/rate_limiter.py:102-123 | Outcome with the disabled and the fail-open branch; the store is unchanged |
| `RateLimiting.ChatCompletionsLimit` | backend/app/modules/inference/router.py:36-56 | The cascade chooses bucket and limit by priority: test header, API key, user, organisation, default |
| `RateLimiting.GetRateLimitLimit` | backend/app/modules/auth/router.py:76-95 | For a session the other cascade chooses the same bucket and limit |
| `StreamService.StreamChatCompletion` | backend/app/modules/inference/service.py:130-217 | From the raw lines of Ollama: the frames yielded and the way the generator ends, for every upstream answer |
| `StreamClient.StreamChatCompletion` | frontend/src/api/inference.ts:51-118 | The callbacks made are those of the concatenated text, wherever the network cuts it, and of each early exit |
| `ChatStoring.ChatStore.NewChatAction` | frontend/src/store/chatStore.ts:87-100 | The whole new state: a first, empty, current session; display cleared |
| `ChatStoring.ChatStore.SelectSessionAction` | frontend/src/store/chatStore.ts:102-110 | The whole new state: current id and error only |
| `ChatStoring.ChatStore.DeleteSessionAction` | frontend/src/store/chatStore.ts:112-125 | The whole new state: the session gone, the first remaining one current if it was current |
| `ChatStoring.ChatStore.StopInferenceAction` | frontend/src/store/chatStore.ts:127-134 | Stopping aborts the controller and nothing else |
| `ChatStoring.ChatStore.FindCurrentSession` | frontend/src/store/chatStore.ts:80-85 | The current user's first session with the current id |
| `ChatStoring.ChatStore.SendMessageAction` | frontend/src/store/chatStore.ts:136-186 | The whole new state, and the history and ids passed to the stream; nothing while a stream is in flight |
| `ChatStoring.ChatStore.RetryLastMessageAction` | frontend/src/store/chatStore.ts:225-267 | The whole new state, and the history passed to the stream |
| `ChatStoring.ChatStore.EditMessageAction` | frontend/src/store/chatStore.ts:305-350 | The whole new state, and the history passed to the stream |
| `ChatStoring.ChatStore.OnChunkCallback` | frontend/src/store/chatStore.ts:187-192 | A chunk is shown only while its session owns the display |
| `ChatStoring.ChatStore.OnDoneCallback` | frontend/src/store/chatStore.ts:193-217 | The whole new state: the reply appended unless blank, the lock released |
| `ChatStoring.ChatStore.OnErrorCallback` | frontend/src/store/chatStore.ts:218-220 | The whole new state: the error shown, the lock released, no session written |
| `ChatStoring.ChatStore.Rehydrated` | frontend/src/store/chatStore.ts:410-414 | A reload keeps sessions and current ids and resets the rest |
| `InlineMarkdown.ParseInlineLoop` | frontend/src/features/chat/components/MessageList.tsx:21-82 | The loop terminates on every string and builds the tree of the specification |
| `BlockMarkdown.ParseMarkdownLoop` | frontend/src/features/chat/components/MessageList.tsx:84-225 | The line loop terminates and builds the elements of the specification |
| `BlockMarkdown.ReadCodeLines` | frontend/src/features/chat/components/MessageList.tsx:108-113 | The code lines are exactly those up to the next fence or the end |
| `Services.Database.CreateApiKeyService` | backend/app/modules/api_keys/service.py:35-96 | Every error and the new table |
| `Services.Database.RotateKeyService` | backend/app/modules/api_keys/service.py:146-176 | Every error and the new table |
| `Services.Database.RevokeKeyService` | backend/app/modules/api_keys/service.py:179-210 | Every error and the new table |
| `Services.Database.AuthenticateByKeyService` | backend/app/modules/api_keys/service.py:222-239 | The row found, stamped with the time, or the error |
| `Services.Database.InviteUserService` | backend/app/modules/users/service.py:39-58 | Every error and the new table; a super admin is never downgraded |
| `Services.Database.RemoveUserFromOrgService` | backend/app/modules/users/service.py:173-202 | Every error; the loop revokes exactly the active keys of the target |
| `Services.Database.UpdateUserRoleService` | backend/app/modules/users/service.py:123-148 | Every error and the new role |
| `Services.Database.CreateOrgService` | backend/app/modules/orgs/service.py:19-40 | The conflict, the new organisation, and the creator who joins it |
| `Services.Database.DeleteOrgService` | backend/app/modules/orgs/service.py:92-123 | Every error; the loop takes the inactive members out, and the organisation goes |
| `Services.Database.SeedSuperAdmin` | backend/app/db/setup.py:92-108 | The verified super admin, unless the address is taken |
| `Services.Database.RegisterService` | backend/app/modules/auth/service.py:18-45 | The new account, or the conflict |
| `Services.Database.LoginService` | backend/app/modules/auth/service.py:47-62 | A session, or one error for every failed check |
| `Services.Database.SsoCallbackService` | backend/app/modules/auth/service.py:80-172 | The checks on Google's answer or the mock token; then linking, verifying or creating the account, and the session |
| `Services.Database.RegisterLoginUnifiedService` | backend/app/modules/auth/service.py:174-217 | Login for a known address, registration for a new one |
| `Services.Database.VerifyEmailTokenService` | backend/app/modules/auth/service.py:219-244 | The account verified, the token cleared, the session |
| `Services.Database.ForgotPasswordService` | backend/app/modules/auth/service.py:246-263 | The new reset token; silence for an unknown address |
| `Services.Database.ResetPasswordService` | backend/app/modules/auth/service.py:265-283 | The new password, the token cleared |
| `Services.Database.GetApiKeyUserDependency` | backend/app/dependencies.py:43-75 | Session first, then API key, then the key's owner |
| `Services.Database.CreateAccessToken` | backend/app/core/auth.py:22-36 | A session of one hour for the user |
| `KeyListing.ListKeys` | backend/app/modules/api_keys/service.py:99-143 | The page and the total of the scoped list, from the queries narrowed step by step |

## Left out

- Floating-point rounding and number formatting in Redis, Lua and Python: tokens and times are reals.
- StreamClient.StreamChatCompletion: takes text that is already decoded; the decoder's carry-over between chunks does not arise on this wire, which `StreamFidelity.WireIsAscii` proves ASCII. Callbacks are assumed to return.
- StreamService.StreamChatCompletion: prints a number as the line wrote it, where Python may print it in another form, and refuses `NaN` and `Infinity`, which Python's parser accepts. Request payload, metrics and logging are not modelled.
- JsonText.NonZero: takes numbers so small that a double reads them as zero for truthy.
- InlineMarkdown.ParseInlineLoop: returns the list of parts; the unwrapping of a single part, React keys inside a line and styles are not modelled.
- ChatStoring.ChatStore.SendMessageAction: does not model timestamps (`createdAt`, `updatedAt`, `timestamp`), here and in the other actions; `setModel` and `loadModels` touch none of the modelled fields.
- Services.Database.SsoCallbackService: takes Google's answer to the token check as a parameter; names of new accounts are not modelled.
- EndToEnd.StoredReplyIsWhatWasHeard: takes the JavaScript conversion of contents that are no strings as a parameter, and so does `EndToEnd.StoredReplyIsTheAnswer`.
- Services.Database.SeedSuperAdmin: does not model `seed_admin.py`, a script apart from the application, whose super admin is unverified.
- Non-streaming completions, model listing, organisation names, limits and listing, limit updates, user listing: no property beyond one body.
- Redis, PostgreSQL and SMTP failures other than the two fail-closed and fail-open branches of the limiter.
- Cross-organisation isolation and the existence of a user's organisation, which the code does not maintain.
- Rendering, login pages, theme, metrics, middleware, migrations and deployment.
