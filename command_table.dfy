/**
 * The command table `commands_` of the voice-command processor, a
 * `std::map<std::string, std::function<void()>>`, and the first-match rule of
 * `processCommand`.
 *
 * A `std::map` is modelled by what it is to its users: the sequence of its
 * entries in ascending key order, each key once. `Table` is the dictionary
 * view of that sequence. Actions are left abstract (`A`); the host chooses
 * what they stand for.
 */
module CommandTable {
  import opened Wrappers
  import opened Text

  datatype Entry<A> = Entry(phrase: string, action: A)

  /** Strictly ascending phrases: the iteration order of a `std::map`, with no key twice. */
  ghost predicate Sorted<A>(es: seq<Entry<A>>) {
    forall i, j :: 0 <= i < j < |es| ==> Less(es[i].phrase, es[j].phrase)
  }

  /** The phrases of a table, in no particular order. */
  function Phrases<A>(es: seq<Entry<A>>): (ps: set<string>) {
    set i | 0 <= i < |es| :: es[i].phrase
  }

  /** The dictionary view: each phrase mapped to its action (the first entry wins if a phrase repeats). */
  function Table<A>(es: seq<Entry<A>>): (m: map<string, A>) {
    if es == [] then map[] else Table(es[1..])[es[0].phrase := es[0].action]
  }

  /** The dictionary view has exactly the table's phrases as keys, and each maps to one of that phrase's actions. */
  lemma {:induction false} TableKeys<A>(es: seq<Entry<A>>)
    ensures Table(es).Keys == Phrases(es)
    ensures forall k :: k in Table(es) ==> Entry(k, Table(es)[k]) in es
  {
    if es != [] {
      TableKeys(es[1..]);
      assert Phrases(es) == {es[0].phrase} + Phrases(es[1..]) by {
        forall k | k in Phrases(es) ensures k in {es[0].phrase} + Phrases(es[1..]) {
          var i :| 0 <= i < |es| && es[i].phrase == k;
          if i > 0 { assert es[1..][i - 1] == es[i]; }
        }
        forall k | k in Phrases(es[1..]) ensures k in Phrases(es) {
          var i :| 0 <= i < |es[1..]| && es[1..][i].phrase == k;
          assert es[i + 1].phrase == k;
        }
      }
    }
  }

  /** In a sorted table every entry is what the dictionary view holds for its phrase. */
  lemma {:induction false} TableOfSorted<A>(es: seq<Entry<A>>)
    requires Sorted(es)
    ensures forall i :: 0 <= i < |es| ==> es[i].phrase in Table(es) && Table(es)[es[i].phrase] == es[i].action
    ensures |Table(es)| == |es|
  {
    if es != [] {
      var tail := es[1..];
      assert Sorted(tail) by {
        forall i, j | 0 <= i < j < |tail| ensures Less(tail[i].phrase, tail[j].phrase) {
          assert tail[i] == es[i + 1] && tail[j] == es[j + 1];
        }
      }
      TableOfSorted(tail);
      TableKeys(tail);
      assert es[0].phrase !in Table(tail);
      forall i | 0 < i < |es| ensures es[i].phrase in Table(es) && Table(es)[es[i].phrase] == es[i].action {
        assert es[i] == tail[i - 1];
        assert Less(es[0].phrase, es[i].phrase);
        LessIrreflexive(es[0].phrase);
      }
    }
  }

  /** `commands_[phrase] = action`: overwrite the entry for `phrase`, or insert it in key order. */
  function Insert<A>(es: seq<Entry<A>>, phrase: string, action: A): (r: seq<Entry<A>>)
    ensures forall e :: e in r ==> e == Entry(phrase, action) || e in es
    ensures Entry(phrase, action) in r
  {
    if es == [] then [Entry(phrase, action)]
    else if es[0].phrase == phrase then [Entry(phrase, action)] + es[1..]
    else if Less(phrase, es[0].phrase) then [Entry(phrase, action)] + es
    else [es[0]] + Insert(es[1..], phrase, action)
  }

  /** Registering keeps the table a `std::map`: strictly ascending phrases. */
  lemma {:induction false} InsertSorted<A>(es: seq<Entry<A>>, phrase: string, action: A)
    requires Sorted(es)
    ensures Sorted(Insert(es, phrase, action))
  {
    var r := Insert(es, phrase, action);
    if es == [] {
    } else if es[0].phrase == phrase {
      assert forall i :: 0 <= i < |r| ==> r[i].phrase == es[i].phrase;
    } else if Less(phrase, es[0].phrase) {
      forall i, j | 0 <= i < j < |r| ensures Less(r[i].phrase, r[j].phrase) {
        assert r[j] == es[j - 1];
        if i == 0 && j > 1 {
          LessTransitive(phrase, es[0].phrase, r[j].phrase);
        } else if i > 0 {
          assert r[i] == es[i - 1];
        }
      }
    } else {
      LessTotal(phrase, es[0].phrase);
      var tail := es[1..];
      assert Sorted(tail) by {
        forall i, j | 0 <= i < j < |tail| ensures Less(tail[i].phrase, tail[j].phrase) {
          assert tail[i] == es[i + 1] && tail[j] == es[j + 1];
        }
      }
      InsertSorted(tail, phrase, action);
      var t' := Insert(tail, phrase, action);
      assert r == [es[0]] + t';
      forall i, j | 0 <= i < j < |r| ensures Less(r[i].phrase, r[j].phrase) {
        if i == 0 {
          assert r[j] == t'[j - 1];
          assert r[j] in t';
          if r[j] != Entry(phrase, action) {
            var k :| 0 <= k < |tail| && tail[k] == r[j];
            assert Less(es[0].phrase, es[k + 1].phrase);
          }
        } else {
          assert r[i] == t'[i - 1] && r[j] == t'[j - 1];
        }
      }
    }
  }

  /**
   * `commands_[phrase] = action`: afterwards `phrase` maps to `action` and
   * every other phrase keeps the action it had.
   */
  lemma {:induction false} InsertTable<A>(es: seq<Entry<A>>, phrase: string, action: A)
    ensures Table(Insert(es, phrase, action)) == Table(es)[phrase := action]
  {
    var r := Insert(es, phrase, action);
    if es == [] {
    } else if es[0].phrase == phrase {
      assert r[1..] == es[1..];
    } else if Less(phrase, es[0].phrase) {
      assert r[1..] == es;
      assert Table(es)[phrase := action] == Table(es)[phrase := action];
    } else {
      InsertTable(es[1..], phrase, action);
      assert r[1..] == Insert(es[1..], phrase, action);
    }
  }

  /**
   * The loop of `processCommand` without its side effect: the first entry, in
   * key order, whose phrase matches the transcript.
   */
  function FirstMatch<A>(es: seq<Entry<A>>, transcript: string): (r: Option<Entry<A>>)
    ensures r.Some? ==> r.value in es && Matches(r.value.phrase, transcript)
    ensures r.None? ==> forall e :: e in es ==> !Matches(e.phrase, transcript)
  {
    if es == [] then None
    else if Matches(es[0].phrase, transcript) then Some(es[0])
    else FirstMatch(es[1..], transcript)
  }

  /** The match found is at a position before which nothing matches. */
  lemma {:induction false} FirstMatchIsFirst<A>(es: seq<Entry<A>>, transcript: string)
    requires FirstMatch(es, transcript).Some?
    ensures exists i :: 0 <= i < |es| && es[i] == FirstMatch(es, transcript).value &&
                        forall j :: 0 <= j < i ==> !Matches(es[j].phrase, transcript)
  {
    if !Matches(es[0].phrase, transcript) {
      FirstMatchIsFirst(es[1..], transcript);
      var i :| 0 <= i < |es[1..]| && es[1..][i] == FirstMatch(es, transcript).value &&
        forall j :: 0 <= j < i ==> !Matches(es[1..][j].phrase, transcript);
      assert es[i + 1] == FirstMatch(es, transcript).value;
      forall j | 0 <= j < i + 1 ensures !Matches(es[j].phrase, transcript) {
        if j > 0 {
          assert es[j] == es[1..][j - 1];
        }
      }
    } else {
      assert es[0] == FirstMatch(es, transcript).value;
    }
  }

  /**
   * The dispatch rule of `processCommand`, stated on the dictionary view: some
   * action fires exactly when some registered phrase matches, and the one that
   * fires is that of the least matching phrase in byte order.
   */
  lemma DispatchSpec<A>(es: seq<Entry<A>>, transcript: string, e: Entry<A>)
    requires Sorted(es)
    ensures FirstMatch(es, transcript).None? <==> forall k :: k in Table(es) ==> !Matches(k, transcript)
    ensures FirstMatch(es, transcript) == Some(e) <==>
      && e.phrase in Table(es) && Table(es)[e.phrase] == e.action
      && Matches(e.phrase, transcript)
      && forall k :: k in Table(es) && Less(k, e.phrase) ==> !Matches(k, transcript)
  {
    var m := Table(es);
    TableOfSorted(es);
    TableKeys(es);
    var r := FirstMatch(es, transcript);
    if r.None? {
      forall k | k in m ensures !Matches(k, transcript) {
        assert Entry(k, m[k]) in es;
      }
    } else {
      var i :| 0 <= i < |es| && es[i] == r.value && forall j :: 0 <= j < i ==> !Matches(es[j].phrase, transcript) by {
        FirstMatchIsFirst(es, transcript);
      }
      forall k | k in m && Less(k, r.value.phrase) ensures !Matches(k, transcript) {
        var j :| 0 <= j < |es| && es[j] == Entry(k, m[k]);
        if j >= i {
          if j > i {
            LessTotal(k, r.value.phrase);
          } else {
            LessIrreflexive(k);
          }
        }
      }
      if e.phrase in m && m[e.phrase] == e.action && Matches(e.phrase, transcript) &&
         (forall k :: k in m && Less(k, e.phrase) ==> !Matches(k, transcript)) {
        LessTotal(e.phrase, r.value.phrase);
        assert e.phrase == r.value.phrase;
        assert r.value.action == m[r.value.phrase];
      }
    }
  }

  /**
   * Order decides between overlapping phrases: if a registered phrase
   * matches, something fires, and what fires is an entry of the table whose
   * phrase is that phrase or one before it in byte order, never one after it.
   */
  lemma FiredPhraseIsNoLater<A>(es: seq<Entry<A>>, transcript: string, phrase: string)
    requires Sorted(es) && phrase in Table(es) && Matches(phrase, transcript)
    ensures FirstMatch(es, transcript).Some?
    ensures var fired := FirstMatch(es, transcript).value;
      fired.phrase in Table(es) && Table(es)[fired.phrase] == fired.action
    ensures var fired := FirstMatch(es, transcript).value.phrase;
      fired == phrase || Less(fired, phrase)
  {
    DispatchSpec(es, transcript, Entry(phrase, Table(es)[phrase]));
    var fired := FirstMatch(es, transcript).value;
    DispatchSpec(es, transcript, fired);
    LessTotal(fired.phrase, phrase);
  }

  /** The transcript's case does not matter: dispatch sees only its lower-cased form. */
  lemma {:induction false} FirstMatchIgnoresCase<A>(es: seq<Entry<A>>, transcript: string, transcript': string)
    requires Lower(transcript) == Lower(transcript')
    ensures FirstMatch(es, transcript) == FirstMatch(es, transcript')
  {
    if es != [] {
      MatchesIgnoresCase(es[0].phrase, es[0].phrase, transcript, transcript');
      FirstMatchIgnoresCase(es[1..], transcript, transcript');
    }
  }

  /**
   * A registered empty phrase is the least key and `find("")` is 0, so its
   * action fires on every transcript and shadows every other entry.
   */
  lemma EmptyPhraseShadowsAll<A>(es: seq<Entry<A>>, transcript: string)
    requires Sorted(es) && "" in Table(es)
    ensures FirstMatch(es, transcript) == Some(Entry("", Table(es)[""]))
  {
    var e := Entry("", Table(es)[""]);
    EmptyPhraseMatches(transcript);
    DispatchSpec(es, transcript, e);
  }
}
