/** From the text of a request to its answer: the method that is written there chooses the rules. */
module HttpAnswers {
  import opened Options
  import opened HttpText
  import opened HttpMethods
  import opened HttpMachine
  import opened HttpParser
  import opened HttpRequests
  import opened HttpMessages
  import opened HttpServed
  import RoutingPatterns
  import Router

  /** The text begins with this word and a space. */
  predicate BeginsWith(text: string, word: string) {
    |text| > |word| && text[..|word|] == word && text[|word|] == ' '
  }

  /** Two words in front of a space are one if they begin the same text. */
  lemma OneWord(name: string, word: string, rest: string)
    requires ' ' !in name && ' ' !in word
    ensures BeginsWith(name + (" " + rest), word) <==> name == word
  {
    var text := name + (" " + rest);
    assert text[|name|] == ' ' && text[..|name|] == name;
    assert forall i | 0 <= i < |name| :: text[i] == name[i] != ' ';
    if BeginsWith(text, word) {
      assert forall i | 0 <= i < |word| :: text[i] == text[..|word|][i] == word[i] != ' ';
    }
  }

  /** The first word of a request is the name of its method. */
  lemma FirstWord(m: Message, word: string)
    requires WellFormed(m) && ' ' !in word
    ensures BeginsWith(MessageText(m), word) <==> METHODS[m.method_] == word
  {
    NoSpace(m.method_);
    var name := METHODS[m.method_];
    var line := (TargetText(m.target) + " ") + VersionText(m.major, m.minor);
    var rest := line + ((Lines(m.headers) + "\r\n") + PayloadText(m.payload));
    assert MessageText(m) == name + (" " + rest);
    OneWord(name, word, rest);
  }

  /** A request is read, in any pieces, and answered. `url` is what the handler takes from the target. */
  method Respond(num: RoutingPatterns.Numbers, methods: seq<Router.PerMethod>, ghost tables: seq<set<RoutingPatterns.Rule>>,
                 ghost m: Message, pieces: seq<string>, url: string, host: string)
    returns (request: Request, res: Router.Response, skipBody: bool)
    requires Router.AllServe(methods, tables) && |methods| == Router.METHOD_COUNT
    requires WellFormed(m) && !Upgrading(m) && |HeadText(m)| <= MAX_HEADER_SIZE
    requires (forall k | k in pieces :: k != "") && Flat(pieces) == MessageText(m)
    ensures request == RequestOf(m)
    ensures BeginsWith(Flat(pieces), "POST") ==>
              && !skipBody && request.body == BodyOf(m.payload)
              && forall k: nat | k < |methods| && Router.IsNamed(k, "POST") :: Router.Answers(num, tables, methods[k].rules, k, url, host, res)
    ensures BeginsWith(Flat(pieces), "GET") ==>
              && !skipBody
              && forall k: nat | k < |methods| && Router.IsNamed(k, "GET") :: Router.Answers(num, tables, methods[k].rules, k, url, host, res)
    ensures BeginsWith(Flat(pieces), "HEAD") ==>
              && skipBody
              && forall k: nat | k < |methods| && Router.IsNamed(k, "GET") :: Router.Answers(num, tables, methods[k].rules, k, url, host, res)
    ensures BeginsWith(Flat(pieces), "OPTIONS") && url != "/*" ==>
              && !skipBody
              && res == var allow := Router.Allowing(num, tables, url, |tables|);
                        if allow == [] then Router.NotFound else Router.Allowed(allow)
  {
    request := ServeOne(m, pieces);
    FirstWords(m, Flat(pieces));
    res, skipBody := Router.Handle(num, methods, tables, request.method_, url, host);
  }

  method ServeOne(ghost m: Message, pieces: seq<string>) returns (request: Request)
    requires WellFormed(m) && !Upgrading(m) && |HeadText(m)| <= MAX_HEADER_SIZE
    requires (forall k | k in pieces :: k != "") && Flat(pieces) == MessageText(m)
    ensures request == RequestOf(m)
  {
    assert Follow([m]) && Texts([m]) == MessageText(m) by {
      OneMessage(m);
    }
    var requests := Serve([m], pieces);
    request := requests[0];
  }

  lemma FirstWords(m: Message, text: string)
    requires WellFormed(m) && text == MessageText(m)
    ensures RequestOf(m).method_ == m.method_ < |METHODS| && RequestOf(m).body == BodyOf(m.payload)
    ensures BeginsWith(text, "POST") <==> Router.IsNamed(m.method_, "POST")
    ensures BeginsWith(text, "GET") <==> Router.IsNamed(m.method_, "GET")
    ensures BeginsWith(text, "HEAD") <==> Router.IsNamed(m.method_, "HEAD")
    ensures BeginsWith(text, "OPTIONS") <==> Router.IsNamed(m.method_, "OPTIONS")
  {
    FirstWord(m, "POST");
    FirstWord(m, "GET");
    FirstWord(m, "HEAD");
    FirstWord(m, "OPTIONS");
  }

  lemma OneMessage(m: Message)
    requires WellFormed(m) && !Upgrading(m) && |HeadText(m)| <= MAX_HEADER_SIZE
    ensures Follow([m]) && Texts([m]) == MessageText(m)
  {
    assert [m][..0] == [] && WithinLimit([m], 0);
    assert Texts([m][..0]) == "" && "" + MessageText(m) == MessageText(m);
  }
}
