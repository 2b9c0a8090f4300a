/**
 * The background processing step (`process_upload` in app/broker.py): every
 * entry of an upload gets the sentiment of its ASCII-only text, then the upload
 * is marked READY. The classifier is the parameter `predict`.
 */
module Broker {
  import opened Wrappers
  import opened Models

  predicate IsAscii(c: char)
  {
    (c as int) < 128
  }

  /** The text with every character of code point 128 or above removed. */
  function AsciiOnly(s: string): (r: string)
    ensures forall i :: 0 <= i < |r| ==> IsAscii(r[i])
    ensures |r| <= |s|
  {
    if s == [] then []
    else if IsAscii(s[0]) then [s[0]] + AsciiOnly(s[1..])
    else AsciiOnly(s[1..])
  }

  /** `r` is obtained from `s` by deleting characters. */
  ghost predicate IsSubsequence(r: string, s: string)
    decreases |s|
  {
    if r == [] then true
    else if s == [] then false
    else if r[0] == s[0] then IsSubsequence(r[1..], s[1..])
    else IsSubsequence(r, s[1..])
  }

  /** The filter only deletes characters, keeping the order of the rest. */
  lemma {:induction false} AsciiOnlyIsSubsequence(s: string)
    ensures IsSubsequence(AsciiOnly(s), s)
  {
    if s != [] {
      AsciiOnlyIsSubsequence(s[1..]);
      if IsAscii(s[0]) {
        assert ([s[0]] + AsciiOnly(s[1..]))[1..] == AsciiOnly(s[1..]);
      } else {
        var r := AsciiOnly(s[1..]);
        if r != [] && r[0] == s[0] {
          assert IsAscii(r[0]);
        }
        SubsequenceSkip(r, s);
      }
    }
  }

  /** A subsequence of the tail is a subsequence of the whole. */
  lemma {:induction false} SubsequenceSkip(r: string, s: string)
    requires s != [] && IsSubsequence(r, s[1..])
    ensures IsSubsequence(r, s)
    decreases |s|, 0
  {
    if r != [] && r[0] == s[0] {
      // Matching r[0] against s[0] leaves r[1..], a subsequence of s[1..].
      SubsequenceDropHead(r, s[1..]);
    }
  }

  /** Dropping the first character of a subsequence keeps it a subsequence. */
  lemma {:induction false} SubsequenceDropHead(r: string, s: string)
    requires r != [] && IsSubsequence(r, s)
    ensures IsSubsequence(r[1..], s)
    decreases |s|, 1
  {
    if r[0] != s[0] {
      SubsequenceDropHead(r, s[1..]);
      if r[1..] != [] {
        SubsequenceSkip(r[1..], s);
      }
    } else if r[1..] != [] {
      SubsequenceSkip(r[1..], s);
    }
  }

  /** Every ASCII character keeps its number of occurrences; the others are gone. */
  lemma {:induction false} AsciiOnlyCounts(s: string, c: char)
    ensures multiset(AsciiOnly(s))[c] == if IsAscii(c) then multiset(s)[c] else 0
  {
    if s != [] {
      AsciiOnlyCounts(s[1..], c);
      assert s == [s[0]] + s[1..];
      assert multiset(s) == multiset{s[0]} + multiset(s[1..]);
    }
  }

  /** Text that is already ASCII passes unchanged. */
  lemma {:induction false} AsciiOnlyKeepsAscii(s: string)
    requires forall i :: 0 <= i < |s| ==> IsAscii(s[i])
    ensures AsciiOnly(s) == s
  {
    if s != [] {
      AsciiOnlyKeepsAscii(s[1..]);
      assert [s[0]] + s[1..] == s;
    }
  }

  /** Filtering twice is filtering once. */
  lemma AsciiOnlyIdempotent(s: string)
    ensures AsciiOnly(AsciiOnly(s)) == AsciiOnly(s)
  {
    AsciiOnlyKeepsAscii(AsciiOnly(s));
  }

  /** The filter works character by character, so it distributes over concatenation. */
  lemma {:induction false} AsciiOnlyConcat(a: string, b: string)
    ensures AsciiOnly(a + b) == AsciiOnly(a) + AsciiOnly(b)
  {
    if a != [] {
      assert (a + b)[0] == a[0];
      assert (a + b)[1..] == a[1..] + b;
      AsciiOnlyConcat(a[1..], b);
      if IsAscii(a[0]) {
        assert [a[0]] + (AsciiOnly(a[1..]) + AsciiOnly(b)) == ([a[0]] + AsciiOnly(a[1..])) + AsciiOnly(b);
      }
    } else {
      assert a + b == b;
    }
  }

  /** An entry after classification: entries of upload `uploadId` get the
      prediction for their ASCII-only text, the others stay as they are. */
  function Classified(e: UploadEntry, uploadId: int, predict: string -> SentimentLevel): UploadEntry
  {
    if e.uploadId == uploadId then e.(sentiment := Some(predict(AsciiOnly(e.text)))) else e
  }

  /** The upload and entry tables the worker reads and writes. */
  class UploadStore {
    var uploads: map<int, Upload>
    var entries: array<UploadEntry>

    constructor (uploads: map<int, Upload>, entries: seq<UploadEntry>)
      ensures this.uploads == uploads && this.entries[..] == entries && fresh(this.entries)
    {
      this.uploads := uploads;
      this.entries := new UploadEntry[|entries|](i requires 0 <= i < |entries| => entries[i]);
    }

    /** Classifies every entry of upload `uploadId` and marks the upload READY.
        Texts, other uploads' entries and other uploads are left as they were. */
    method ProcessUpload(uploadId: int, predict: string -> SentimentLevel)
      requires uploadId in uploads
      modifies this`uploads, entries
      ensures forall i :: 0 <= i < entries.Length ==> entries[i] == Classified(old(entries[i]), uploadId, predict)
      ensures forall i :: 0 <= i < entries.Length && entries[i].uploadId == uploadId ==>
        entries[i].sentiment == Some(predict(AsciiOnly(entries[i].text)))
      ensures forall i :: 0 <= i < entries.Length ==>
        entries[i].text == old(entries[i]).text && entries[i].uploadId == old(entries[i]).uploadId &&
        entries[i].id == old(entries[i]).id
      ensures forall i :: 0 <= i < entries.Length && old(entries[i]).uploadId != uploadId ==> entries[i] == old(entries[i])
      ensures uploads == old(uploads)[uploadId := old(uploads)[uploadId].(status := READY)]
    {
      var i := 0;
      while i < entries.Length
        invariant 0 <= i <= entries.Length
        invariant forall k :: 0 <= k < i ==> entries[k] == Classified(old(entries[k]), uploadId, predict)
        invariant forall k :: i <= k < entries.Length ==> entries[k] == old(entries[k])
        invariant uploads == old(uploads)
      {
        var entry := entries[i];
        if entry.uploadId == uploadId {
          var text := AsciiOnly(entry.text);
          entries[i] := entry.(sentiment := Some(predict(text)));
        }
        i := i + 1;
      }
      var upload := uploads[uploadId];
      uploads := uploads[uploadId := upload.(status := READY)];
    }
  }

  /** Once an upload has been processed it is READY and none of its entries lacks a sentiment. */
  method ProcessThenRead(store: UploadStore, uploadId: int, predict: string -> SentimentLevel)
    requires uploadId in store.uploads
    modifies store`uploads, store.entries
    ensures uploadId in store.uploads && store.uploads[uploadId].status == READY
    ensures forall i :: 0 <= i < store.entries.Length && store.entries[i].uploadId == uploadId ==>
      store.entries[i].sentiment.Some?
  {
    store.ProcessUpload(uploadId, predict);
  }
}
