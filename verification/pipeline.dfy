/**
 * The LangGraph pipeline (backend/app/rag/graph.py): a retrieve node that
 * joins the top documents into a context string, a generate node that asks
 * the chat model, and the two-node graph that runs them in order.
 */
module Pipeline {
  import opened Outcomes
  import opened Text
  import opened Config
  import opened Embeddings
  import opened VectorStore

  /** `RAGState`. */
  datatype RAGState = RAGState(
    question: string,
    userId: Option<string>,
    context: Option<string>,
    answer: Option<string>)

  /** A fresh state as `search` builds it. */
  function InitialState(question: string, userId: Option<string>): RAGState {
    RAGState(question, userId, None, None)
  }

  // ---------------------------------------------------------------------------
  // Retrieval
  // ---------------------------------------------------------------------------

  /**
   * Chroma's ranked search, outside the model: the embeddings client the
   * store was opened with, the query, `k`, and the `user_id` metadata
   * filter (absent when there is none).
   */
  type Retriever = (EmbeddingsClient, string, nat, Option<string>) -> seq<Document>

  /** The number of documents the graph and the search endpoint ask for. */
  const TopK: nat := 5

  /**
   * `similarity_search(query, k, user_id)`. Opening the store
   * (`get_vectorstore`) builds the embeddings client first, so the search
   * raises whatever `get_embedding_strategy` raises; otherwise the store is
   * searched with a `user_id` filter only for a truthy `user_id`.
   */
  function SimilaritySearch(retriever: Retriever, s: Settings, query: string, k: nat, userId: Option<string>)
    : (r: Result<seq<Document>, ConfigError>)
    ensures r.Ok? <==> GetEmbeddingStrategy(s).Ok?
    ensures r.Err? ==> r.error == GetEmbeddingStrategy(s).error
    ensures r.Ok? && Truthy(userId) ==> r.value == retriever(GetEmbeddingStrategy(s).value, query, k, userId)
    ensures r.Ok? && !Truthy(userId) ==> r.value == retriever(GetEmbeddingStrategy(s).value, query, k, None)
  {
    var client :- GetEmbeddingStrategy(s);
    Ok(retriever(client, query, k, if Truthy(userId) then Some(userId.value) else None))
  }

  /** `f"{d.metadata.get('file_name')}"`: a missing name prints as `None`. */
  function FileNameText(m: Metadata): string {
    if m.fileName.Some? then m.fileName.value else "None"
  }

  /** One context paragraph: `From {file_name}: {page_content}`. */
  function ContextLine(d: Document): (r: string)
    ensures StartsWith(r, "From ")
  {
    "From " + FileNameText(d.metadata) + ": " + d.pageContent
  }

  /** The context paragraphs, in retrieval order. */
  function ContextLines(docs: seq<Document>): (r: seq<string>)
    ensures |r| == |docs|
    ensures forall i :: 0 <= i < |docs| ==> r[i] == ContextLine(docs[i])
  {
    seq(|docs|, i requires 0 <= i < |docs| => ContextLine(docs[i]))
  }

  /** `"\n\n".join(...)` of the context paragraphs. */
  function JoinContext(docs: seq<Document>): string {
    Join(ContextLines(docs), "\n\n")
  }

  /** The context is empty exactly when nothing was retrieved. */
  lemma JoinContextEmpty(docs: seq<Document>)
    ensures JoinContext(docs) == "" <==> docs == []
  {
    if docs != [] {
      JoinNonEmpty(ContextLines(docs));
    }
  }

  /** Each further document appends a blank line and its paragraph. */
  lemma JoinContextSnoc(docs: seq<Document>, d: Document)
    ensures JoinContext(docs + [d])
      == if docs == [] then ContextLine(d) else JoinContext(docs) + "\n\n" + ContextLine(d)
  {
    var lines := ContextLines(docs + [d]);
    assert lines[..|lines| - 1] == ContextLines(docs);
  }

  /** Joining non-empty paragraphs never gives the empty string. */
  lemma {:induction false} JoinNonEmpty(parts: seq<string>)
    requires parts != []
    requires forall i :: 0 <= i < |parts| ==> parts[i] != ""
    ensures Join(parts, "\n\n") != ""
    decreases |parts|
  {
    if |parts| > 1 {
      JoinNonEmpty(parts[..|parts| - 1]);
    }
  }

  /**
   * `retrieve_node`: search with the state's question and user, store the
   * joined context; the search's configuration error propagates.
   */
  function RetrieveNode(state: RAGState, retriever: Retriever, s: Settings): (r: Result<RAGState, ConfigError>)
    ensures r.Ok? <==> GetEmbeddingStrategy(s).Ok?
    ensures r.Err? ==> r.error == GetEmbeddingStrategy(s).error
    ensures r.Ok? ==> r.value == state.(context := r.value.context) && r.value.context.Some?
    ensures r.Ok? ==>
      (r.value.context.value == "" <==> SimilaritySearch(retriever, s, state.question, TopK, state.userId).value == [])
  {
    var docs :- SimilaritySearch(retriever, s, state.question, TopK, state.userId);
    JoinContextEmpty(docs);
    Ok(state.(context := Some(JoinContext(docs))))
  }

  // ---------------------------------------------------------------------------
  // Generation
  // ---------------------------------------------------------------------------

  /** The chat model `_get_chat_model` builds, by its constructor arguments. */
  datatype ChatModel =
    | ChatOllama(baseUrl: Option<string>, model: string)
    | ChatOpenAI(model: string, apiKey: Option<string>)
    | ChatAnthropic(model: string, apiKey: Option<string>)

  /**
   * `_get_chat_model()`: the provider picks the client; no credential is
   * checked here, and OpenAI and Anthropic use fixed model names.
   */
  function GetChatModel(s: Settings): (r: Result<ChatModel, ConfigError>)
    ensures r.Ok? <==> Upper(s.useProvider) in {"OLLAMA", "OPENAI", "ANTHROPIC"}
    ensures Upper(s.useProvider) == "OLLAMA" ==> r == Ok(ChatOllama(s.ollamaUrl, s.ollamaLlmModel))
    ensures Upper(s.useProvider) == "OPENAI" ==> r == Ok(ChatOpenAI("gpt-4o-mini", s.openaiApiKey))
    ensures Upper(s.useProvider) == "ANTHROPIC"
      ==> r == Ok(ChatAnthropic("claude-3-5-sonnet-20241022", s.anthropicApiKey))
    ensures r.Err? ==> r.error == UnsupportedProvider(Upper(s.useProvider))
  {
    var provider :- SelectProvider(s.useProvider);
    match provider
    case Ollama => Ok(ChatOllama(s.ollamaUrl, s.ollamaLlmModel))
    case OpenAI => Ok(ChatOpenAI("gpt-4o-mini", s.openaiApiKey))
    case Anthropic => Ok(ChatAnthropic("claude-3-5-sonnet-20241022", s.anthropicApiKey))
  }

  /** A chat message: `(role, content)`. */
  datatype Message = Message(role: string, content: string)

  /** The system instruction of `generate_node`. */
  const SystemPrompt: string :=
    "You are a retrieval-augmented assistant for the Business Idea Generator (BIG). "
    + "Answer the user's question using ONLY the provided context. "
    + "If the context is not sufficient to answer safely, say you don't know."

  /** `state.context or 'NO CONTEXT'`. */
  function ContextOrFallback(context: Option<string>): (r: string)
    ensures r == "NO CONTEXT" <==> context == None || context == Some("") || context == Some("NO CONTEXT")
    ensures r != "NO CONTEXT" ==> context == Some(r)
  {
    if context.Some? && context.value != "" then context.value else "NO CONTEXT"
  }

  /** The two messages sent to the chat model. */
  function Prompt(state: RAGState): seq<Message> {
    [ Message("system", SystemPrompt),
      Message("user", "Question: " + state.question + "\n\nContext:\n" + ContextOrFallback(state.context)) ]
  }

  /** The chat model's reply content, outside the model. */
  type Llm = (ChatModel, seq<Message>) -> string

  /** `generate_node`: ask the chat model and store its reply as the answer. */
  function GenerateNode(state: RAGState, s: Settings, llm: Llm): (r: Result<RAGState, ConfigError>)
    ensures r.Ok? <==> GetChatModel(s).Ok?
    ensures r.Ok? ==> r.value == state.(answer := Some(llm(GetChatModel(s).value, Prompt(state))))
    ensures r.Err? ==> r.error == GetChatModel(s).error
  {
    var model :- GetChatModel(s);
    Ok(state.(answer := Some(llm(model, Prompt(state)))))
  }

  /**
   * Whenever the store can be opened a chat model can be built too: both
   * providers with an embedding backend also have a chat model.
   */
  lemma ChatModelWhenSearchable(s: Settings)
    requires GetEmbeddingStrategy(s).Ok?
    ensures GetChatModel(s).Ok?
    ensures GetChatModel(s).value.ChatOllama? <==> GetEmbeddingStrategy(s).value.OllamaEmbeddings?
  {
  }

  /**
   * The user message carries the question and the retrieved context; when
   * retrieval found nothing it carries `NO CONTEXT` instead.
   */
  lemma PromptAfterRetrieve(state: RAGState, retriever: Retriever, s: Settings)
    requires GetEmbeddingStrategy(s).Ok?
    ensures var docs := SimilaritySearch(retriever, s, state.question, TopK, state.userId).value;
      Prompt(RetrieveNode(state, retriever, s).value)[1].content
        == "Question: " + state.question + "\n\nContext:\n"
           + (if docs == [] then "NO CONTEXT" else JoinContext(docs))
  {
  }

  // ---------------------------------------------------------------------------
  // The graph
  // ---------------------------------------------------------------------------

  /** The graph's nodes; `End` is LangGraph's `END`. */
  datatype Node = Retrieve | Generate | End

  /** A compiled graph: an entry point and one outgoing edge per node. */
  datatype Graph = Graph(entry: Node, edges: map<Node, Node>)

  /** `build_graph()`. */
  function BuildGraph(): (g: Graph)
    ensures End !in g.edges
  {
    Graph(Retrieve, map[Retrieve := Generate, Generate := End])
  }

  /** LangGraph's default `recursion_limit`: the most node steps one invocation may take. */
  const RecursionLimit: nat := 25

  /** Why an invocation failed. */
  datatype RunError = NodeFailed(cause: ConfigError) | RecursionLimitReached | NoEdge(from: Node)

  /** Running one node on the state. */
  function RunNode(n: Node, state: RAGState, retriever: Retriever, s: Settings, llm: Llm): Result<RAGState, RunError> {
    match n
    case Retrieve =>
      var r := RetrieveNode(state, retriever, s);
      if r.Ok? then Ok(r.value) else Err(NodeFailed(r.error))
    case Generate =>
      var r := GenerateNode(state, s, llm);
      if r.Ok? then Ok(r.value) else Err(NodeFailed(r.error))
    case End => Ok(state)
  }

  /** Follow the edges from `n` until `End`, at most `steps` node runs. */
  function Run(g: Graph, n: Node, state: RAGState, steps: nat, retriever: Retriever, s: Settings, llm: Llm): Result<RAGState, RunError>
    decreases steps
  {
    if n == End then Ok(state)
    else if steps == 0 then Err(RecursionLimitReached)
    else if n !in g.edges then Err(NoEdge(n))
    else
      var next :- RunNode(n, state, retriever, s, llm);
      Run(g, g.edges[n], next, steps - 1, retriever, s, llm)
  }

  /** `graph.invoke(state)`. */
  function Invoke(state: RAGState, retriever: Retriever, s: Settings, llm: Llm): Result<RAGState, RunError> {
    var g := BuildGraph();
    Run(g, g.entry, state, RecursionLimit, retriever, s, llm)
  }

  /**
   * Invoking the compiled graph is retrieval followed by generation: a
   * retrieval failure ends the run, and otherwise the run returns what
   * generation makes of the retrieved state, failures included.
   */
  lemma InvokeIsRetrieveThenGenerate(state: RAGState, retriever: Retriever, s: Settings, llm: Llm)
    ensures var retrieved := RetrieveNode(state, retriever, s);
      && (retrieved.Err? ==> Invoke(state, retriever, s, llm) == Err(NodeFailed(retrieved.error)))
      && (retrieved.Ok? ==>
            var generated := GenerateNode(retrieved.value, s, llm);
            && (generated.Ok? ==> Invoke(state, retriever, s, llm) == Ok(generated.value))
            && (generated.Err? ==> Invoke(state, retriever, s, llm) == Err(NodeFailed(generated.error))))
  {
    var g := BuildGraph();
    var retrieved := RetrieveNode(state, retriever, s);
    if retrieved.Ok? {
      assert Run(g, Retrieve, state, RecursionLimit, retriever, s, llm)
        == Run(g, Generate, retrieved.value, RecursionLimit - 1, retriever, s, llm);
    }
  }

  /**
   * An invocation fails exactly when no embeddings client can be built,
   * with that configuration error; a successful run keeps the question and
   * user and sets an answer.
   */
  lemma InvokeKeepsQuestion(state: RAGState, retriever: Retriever, s: Settings, llm: Llm)
    ensures var r := Invoke(state, retriever, s, llm);
      && (r.Err? <==> GetEmbeddingStrategy(s).Err?)
      && (r.Err? ==> r.error == NodeFailed(GetEmbeddingStrategy(s).error))
      && (r.Ok? ==> r.value.question == state.question && r.value.userId == state.userId && r.value.answer.Some?)
  {
    InvokeIsRetrieveThenGenerate(state, retriever, s, llm);
    if GetEmbeddingStrategy(s).Ok? {
      ChatModelWhenSearchable(s);
    }
  }
}
