/** Assembly options, their normalisation, and the byte layout that identifies a cached policy. */
module ContextPolicy {
  import opened Wrappers
  import opened RustText
  import opened Utf8

  const DEFAULT_MAX_CONTEXT_BYTES: nat := 1_048_576
  const DEFAULT_MAX_CHUNKS: nat := 128
  const MAX_NAMESPACE_CHARS: nat := 256
  const DEFAULT_NAMESPACE: string := "default"

  datatype ContextAssemblyOptions = ContextAssemblyOptions(
    query: Option<string>,
    cacheNamespace: string,
    rewindRevision: Option<nat>,
    maxContextBytes: nat,
    maxChunks: nat,
    recentTailChunks: nat,
    cacheEnabled: bool)
  {
    function Normalized(): ContextAssemblyOptions {
      var chunks := Clamp(maxChunks, 1, DEFAULT_MAX_CHUNKS);
      this.(
      maxContextBytes := Clamp(maxContextBytes, 1, DEFAULT_MAX_CONTEXT_BYTES),
      maxChunks := chunks,
      recentTailChunks := Min(recentTailChunks, chunks),
      cacheNamespace := NormalizeCacheNamespace(cacheNamespace))
    }

    /** The query as the policy hash sees it: an absent query and an empty one look the same. */
    function QueryText(): string {
      match query
      case None => []
      case Some(text) => text
    }

    /** Neither a rewind nor a switched-off cache. */
    predicate Plain() {
      rewindRevision == None && cacheEnabled
    }

    predicate InRange() {
      && 1 <= maxContextBytes <= DEFAULT_MAX_CONTEXT_BYTES
      && 1 <= maxChunks <= DEFAULT_MAX_CHUNKS
      && recentTailChunks <= maxChunks
    }
  }

  function Min(a: nat, b: nat): nat {
    if a <= b then a else b
  }

  function Clamp(n: nat, low: nat, high: nat): nat
    requires low <= high
  {
    if n < low then low else if n > high then high else n
  }

  function NormalizeCacheNamespace(value: string): string {
    var normalized := Trim(value);
    if normalized == [] then DEFAULT_NAMESPACE
    else if |normalized| <= MAX_NAMESPACE_CHARS then normalized
    else normalized[..MAX_NAMESPACE_CHARS]
  }

  /** `usize::to_be_bytes`, generalised to any width. */
  function BigEndian(n: nat, width: nat): (bytes: seq<byte>)
    ensures |bytes| == width
  {
    if width == 0 then [] else BigEndian(n / 0x100, width - 1) + [n % 0x100]
  }

  function Budgets(o: ContextAssemblyOptions): (bytes: seq<byte>)
    ensures |bytes| == 24
  {
    BigEndian(o.maxContextBytes, 8) + BigEndian(o.maxChunks, 8) + BigEndian(o.recentTailChunks, 8)
  }

  /** The bytes that `assembly_policy_hash` feeds to SHA-256. */
  function PolicyLayout(o: ContextAssemblyOptions): seq<byte> {
    Encode(o.cacheNamespace) + [0] + Budgets(o) + Encode(o.QueryText())
  }

  /** Two options that must share cached packs: everything a pack depends on is the same. */
  predicate SamePolicy(a: ContextAssemblyOptions, b: ContextAssemblyOptions) {
    && a.cacheNamespace == b.cacheNamespace
    && a.maxContextBytes == b.maxContextBytes
    && a.maxChunks == b.maxChunks
    && a.recentTailChunks == b.recentTailChunks
    && a.QueryText() == b.QueryText()
  }
}
