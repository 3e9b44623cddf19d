/**
 The sizes that the session and its store agree on (src/session.h:54-69,
 src/crypto/crypto.h:88-98).
 */
module Limits {
  const SKIPPED_MAX := 96    // stored keys of skipped messages
  const MAX_SKIP := 512      // how far ahead of the chain a frame may be
  const REKEY_EVERY := 64    // frames of one direction between re-keys
  const SENT_MAX := 32       // buffered texts
  const PENDING_MAX := 4     // texts stashed before the session is up
  const FRAME_MAX := 1372
  const DATA_MAX := 1319
}
