/** Pagination: Spring's `PageRequest` and `Page`, and the service's own
    `CustomPage` response wrapper. */
module Pages {

  /** `PageRequest.of(pageNumber, pageSize)`; Spring rejects a size below
      one, see `IsPageRequest`. */
  datatype Pageable = Pageable(pageNumber: nat, pageSize: nat)

  predicate IsPageRequest(p: Pageable) {
    p.pageSize >= 1
  }

  /** The index of the first element of the requested page. */
  function Offset(p: Pageable): nat {
    p.pageNumber * p.pageSize
  }

  /** Spring's `Page<T>`: the content of one page of a query result, with the
      page number and page size that were requested. */
  datatype Page<T> = Page(content: seq<T>, number: nat, size: nat)

  /** Page `p` of the full result `all`: the elements at positions
      `[Offset(p), Offset(p) + size)`, cut off at the end of `all`. */
  function Slice<T>(all: seq<T>, p: Pageable): (r: Page<T>)
    ensures r.number == p.pageNumber && r.size == p.pageSize
    ensures |r.content| == PageLength(|all|, p)
    ensures forall i :: 0 <= i < |r.content| ==> Offset(p) + i < |all| && r.content[i] == all[Offset(p) + i]
  {
    var lo := Min(Offset(p), |all|);
    var hi := Min(Offset(p) + p.pageSize, |all|);
    Page(all[lo..hi], p.pageNumber, p.pageSize)
  }

  function Min(a: int, b: int): int {
    if a <= b then a else b
  }

  /** How many elements page `p` of a result of `n` elements holds: a full
      page, the remainder on the last page, none past the end. */
  function PageLength(n: nat, p: Pageable): nat {
    if Offset(p) >= n then 0 else Min(p.pageSize, n - Offset(p))
  }

  /** `c` is exactly the content of page `p` of `all`: as many elements as
      that page holds, each the element of `all` at its position. */
  predicate IsSliceOf<T(==)>(c: seq<T>, all: seq<T>, p: Pageable) {
    && |c| == PageLength(|all|, p)
    && forall i :: 0 <= i < |c| ==> Offset(p) + i < |all| && c[i] == all[Offset(p) + i]
  }

  /** Paging loses nothing: element `k` of the full result is element
      `k % size` of page `k / size`. */
  lemma SliceLocates<T>(all: seq<T>, size: nat, k: nat)
    requires size >= 1 && k < |all|
    ensures var r := Slice(all, Pageable(k / size, size));
      k % size < |r.content| && r.content[k % size] == all[k]
  {
    var p := Pageable(k / size, size);
    assert Offset(p) + k % size == k;
  }

  /** `CustomPage<T>`: the page shape returned to clients. */
  datatype CustomPage<T> = CustomPage(content: seq<T>, page: int, size: int)

  /** `CustomPage.isEmpty()`: no content. */
  predicate IsEmpty<T>(p: CustomPage<T>) {
    |p.content| == 0
  }

  /** `CustomPage.empty()`: no content, page 0, size 0. */
  function Empty<T>(): (r: CustomPage<T>)
    ensures IsEmpty(r) && r.page == 0 && r.size == 0
  {
    CustomPage([], 0, 0)
  }

  /** `CustomPage.of(content, page, size)` */
  function Of<T>(content: seq<T>, page: int, size: int): (r: CustomPage<T>)
    ensures r.content == content && r.page == page && r.size == size
    ensures IsEmpty(r) <==> |content| == 0
  {
    CustomPage(content, page, size)
  }

  /** `CustomPage.map(f)`: applies `f` to each element in order and keeps the
      page metadata. */
  function Map<T, R>(p: CustomPage<T>, f: T -> R): (r: CustomPage<R>)
    ensures r.page == p.page && r.size == p.size
    ensures |r.content| == |p.content|
    ensures forall i :: 0 <= i < |p.content| ==> r.content[i] == f(p.content[i])
  {
    CustomPage(seq(|p.content|, i requires 0 <= i < |p.content| => f(p.content[i])), p.page, p.size)
  }

  /** Mapping the identity changes nothing. */
  lemma MapIdentity<T>(p: CustomPage<T>)
    ensures Map(p, (x: T) => x) == p
  {
    assert Map(p, (x: T) => x).content == p.content;
  }

  /** Mapping twice is mapping the composition once. */
  lemma MapCompose<T, U, R>(p: CustomPage<T>, f: T -> U, g: U -> R)
    ensures Map(Map(p, f), g) == Map(p, (x: T) => g(f(x)))
  {
    assert Map(Map(p, f), g).content == Map(p, (x: T) => g(f(x))).content;
  }

  /** `CustomPage.fromPage(page)`: the content with the page's number and size. */
  function FromPage<T>(p: Page<T>): (r: CustomPage<T>)
    ensures r.content == p.content && r.page == p.number && r.size == p.size
  {
    CustomPage(p.content, p.number, p.size)
  }
}
