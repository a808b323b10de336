/**
 * Premium-asset URLs: which stored URLs count as local (left over from
 * uploads to the server's disk), the storage-service URL they are rebuilt
 * into, the maintenance pass that rewrites them in both collections
 * (`/fix-urls`), and the URL survey (`/db-status`).
 */
module AssetUrls {
  import opened Wrappers
  import Text
  import opened Models
  import opened Store

  const CloudHost := "https://res.cloudinary.com/"

  /** A URL that points at the server's own disk: under "/uploads/" or on localhost. */
  predicate IsLocalUrl(url: string) {
    Text.StartsWith(url, "/uploads/") || Text.Contains(url, "localhost")
  }

  /** `mimetype?.startsWith('video/') ? 'video' : 'image'`. */
  function ResourceType(mimetype: Option<string>): (r: string)
    ensures r == "video" <==> mimetype.Some? && Text.StartsWith(mimetype.value, "video/")
    ensures r == "image" <==> !(mimetype.Some? && Text.StartsWith(mimetype.value, "video/"))
  {
    if mimetype.Some? && Text.StartsWith(mimetype.value, "video/") then "video" else "image"
  }

  /** `https://res.cloudinary.com/<cloud>/<resource>/upload/v1/<path>`. */
  function CloudUrl(cloud: string, resource: string, path: string): (r: string)
    ensures Text.StartsWith(r, CloudHost)
  {
    CloudHost + cloud + "/" + resource + "/upload/v1/" + path
  }

  /** `s.includes(sub)` holds when `sub` occurs at position `i`. */
  lemma {:induction false} ContainsAt(s: string, i: nat, sub: string)
    requires i + |sub| <= |s| && s[i..i + |sub|] == sub
    ensures Text.Contains(s, sub)
    decreases i
  {
    if i > 0 {
      assert s[1..][i - 1..i - 1 + |sub|] == s[i..i + |sub|];
      ContainsAt(s[1..], i - 1, sub);
    }
  }

  // -------------------------------------------------------------- db-status

  /** `hasValidUrl`: present, not on localhost, not under "/uploads/". */
  predicate HasValidUrl(url: Option<string>) {
    Truthy(url) && !Text.Contains(url.value, "localhost") && !Text.StartsWith(url.value, "/uploads/")
  }

  /** `urlType`. */
  function UrlType(url: Option<string>): (r: string)
    ensures r == "none" <==> !Truthy(url)
    ensures r == "cloudinary" <==> Truthy(url) && Text.Contains(url.value, "cloudinary")
    ensures r == "local" <==> Truthy(url) && !Text.Contains(url.value, "cloudinary")
  {
    if !Truthy(url) then "none" else if Text.Contains(url.value, "cloudinary") then "cloudinary" else "local"
  }

  /** Every rebuilt URL is classified as a storage-service URL and is not under "/uploads/". */
  lemma CloudUrlClassified(cloud: string, resource: string, path: string)
    ensures UrlType(Some(CloudUrl(cloud, resource, path))) == "cloudinary"
    ensures !Text.StartsWith(CloudUrl(cloud, resource, path), "/uploads/")
  {
    var u := CloudUrl(cloud, resource, path);
    assert u[..|CloudHost|] == CloudHost;
    assert u[12..22] == CloudHost[12..22];
    ContainsAt(u, 12, "cloudinary");
    assert u[0] == 'h';
  }

  /** A URL the maintenance pass would rewrite is counted invalid by the survey. */
  lemma LocalIsInvalid(url: Option<string>)
    requires Truthy(url) && IsLocalUrl(url.value)
    ensures !HasValidUrl(url)
  {
  }

  /** The legacy assets of the Payment collection: those flagged as premium content. */
  function PaymentContent(payments: seq<PremiumItem>): (r: seq<PremiumItem>)
    ensures |r| <= |payments|
    ensures forall x :: x in r ==> x in payments && x.isPremiumContent
    ensures forall x :: x in payments && x.isPremiumContent ==> x in r
  {
    if payments == [] then []
    else (if payments[0].isPremiumContent then [payments[0]] else []) + PaymentContent(payments[1..])
  }

  /** How many items satisfy `HasValidUrl`. */
  function CountValid(items: seq<PremiumItem>): (n: nat)
    ensures n <= |items|
  {
    if items == [] then 0 else (if HasValidUrl(items[0].fileUrl) then 1 else 0) + CountValid(items[1..])
  }

  function CountInvalid(items: seq<PremiumItem>): (n: nat)
    ensures n <= |items|
  {
    if items == [] then 0 else (if HasValidUrl(items[0].fileUrl) then 0 else 1) + CountInvalid(items[1..])
  }

  /** Every item is either valid or invalid. */
  lemma {:induction false} ValidPlusInvalid(items: seq<PremiumItem>)
    ensures CountValid(items) + CountInvalid(items) == |items|
  {
    if items != [] {
      ValidPlusInvalid(items[1..]);
    }
  }

  datatype DbStatus = DbStatus(totalItems: nat, paymentItems: nat, premiumItems: nat, validUrls: nat, invalidUrls: nat)

  /** `/db-status`: the survey over the legacy assets followed by the Premium collection. */
  function DbStatusOf(payments: seq<PremiumItem>, premiums: seq<PremiumItem>): (r: DbStatus)
    ensures r.totalItems == r.paymentItems + r.premiumItems
    ensures r.validUrls + r.invalidUrls == r.totalItems
  {
    var items := PaymentContent(payments) + premiums;
    ValidPlusInvalid(items);
    DbStatus(|items|, |PaymentContent(payments)|, |premiums|, CountValid(items), CountInvalid(items))
  }

  // --------------------------------------------------------------- fix-urls

  /**
   * `item.fileName` as the pass reads it. The pass visits Payment documents
   * (those flagged `isPremiumContent`; the Premium schema has no such flag)
   * and the Payment schema has no `fileName` path, so there it is undefined.
   */
  function ReadName(item: PremiumItem): (r: Option<string>)
    ensures item.isPremiumContent ==> r.None?
    ensures !item.isPremiumContent ==> r == item.fileName
  {
    if item.isPremiumContent then None else item.fileName
  }

  /** `item.fileType` as the pass reads it: undefined on a Payment document, as for `fileName`. */
  function ReadType(item: PremiumItem): (r: Option<string>)
    ensures item.isPremiumContent ==> r.None?
    ensures !item.isPremiumContent ==> r == item.fileType
  {
    if item.isPremiumContent then None else item.fileType
  }

  /**
   * The name a local URL is rebuilt with: the file name read, else the
   * last '/' piece of the old URL; None when that is empty too.
   */
  function FixName(item: PremiumItem): (r: Option<string>)
    ensures r.Some? ==> r.value != ""
    ensures Truthy(ReadName(item)) ==> r == ReadName(item)
    ensures !Truthy(ReadName(item)) && Truthy(item.fileUrl) ==>
              r == if Text.LastPiece(item.fileUrl.value, '/') != "" then Some(Text.LastPiece(item.fileUrl.value, '/')) else None
    ensures !Truthy(ReadName(item)) && !Truthy(item.fileUrl) ==> r.None?
  {
    var name := if Truthy(ReadName(item)) then ReadName(item).value
                else if Truthy(item.fileUrl) then Text.LastPiece(item.fileUrl.value, '/')
                else "";
    if name != "" then Some(name) else None
  }

  /** The URL an item is rewritten to, or None when it is left alone. */
  function Rewrite(item: PremiumItem, cloud: string): (r: Option<string>)
    ensures r.Some? <==> Truthy(item.fileUrl) && IsLocalUrl(item.fileUrl.value) && FixName(item).Some?
    ensures r.Some? ==> r.value == CloudUrl(cloud, ResourceType(ReadType(item)), "premium/" + FixName(item).value)
  {
    if Truthy(item.fileUrl) && IsLocalUrl(item.fileUrl.value) && FixName(item).Some? then
      Some(CloudUrl(cloud, ResourceType(ReadType(item)), "premium/" + FixName(item).value))
    else None
  }

  /**
   * A Payment document with a local URL is always rebuilt from the URL's
   * last '/' piece as an "image" resource, whatever file name or type the
   * record carries.
   */
  lemma PaymentRewrite(item: PremiumItem, cloud: string)
    requires item.isPremiumContent && Truthy(item.fileUrl) && IsLocalUrl(item.fileUrl.value)
    requires Text.LastPiece(item.fileUrl.value, '/') != ""
    ensures Rewrite(item, cloud) == Some(CloudUrl(cloud, "image", "premium/" + Text.LastPiece(item.fileUrl.value, '/')))
  {
  }

  /** One `findByIdAndUpdate` on the store the item belongs to (`toPayment` says which store this is). */
  function UpdateUrl(store: seq<PremiumItem>, item: PremiumItem, cloud: string, toPayment: bool): (r: seq<PremiumItem>)
    ensures |r| == |store|
    ensures Rewrite(item, cloud).None? || item.isPremiumContent != toPayment ==> r == store
  {
    if Rewrite(item, cloud).None? || item.isPremiumContent != toPayment then store
    else match IndexWhere(store, (x: PremiumItem) => x.id == item.id)
      case None => store
      case Some(k) => store[k := store[k].(fileUrl := Rewrite(item, cloud))]
  }

  /** The store after the pass has visited `items` in order. */
  function ApplyAll(store: seq<PremiumItem>, items: seq<PremiumItem>, cloud: string, toPayment: bool): (r: seq<PremiumItem>)
    ensures |r| == |store|
    decreases |items|
  {
    if items == [] then store else ApplyAll(UpdateUrl(store, items[0], cloud, toPayment), items[1..], cloud, toPayment)
  }

  /** How many of `items` are rewritten. */
  function CountFixed(items: seq<PremiumItem>, cloud: string): (n: nat)
    ensures n <= |items|
  {
    if items == [] then 0
    else (if Rewrite(items[0], cloud).Some? then 1 else 0) + CountFixed(items[1..], cloud)
  }

  /**
   * `/fix-urls`: every legacy asset and every Premium item is visited in
   * turn; a local URL with a usable name is rewritten in the item's own
   * collection and counted.
   */
  method FixUrls(db: Database, cloud: string) returns (fixedCount: nat, totalItems: nat)
    modifies db`payments, db`premiums
    ensures var items := PaymentContent(old(db.payments)) + old(db.premiums);
            && totalItems == |items|
            && fixedCount == CountFixed(items, cloud)
            && db.payments == ApplyAll(old(db.payments), items, cloud, true)
            && db.premiums == ApplyAll(old(db.premiums), items, cloud, false)
    ensures fixedCount <= totalItems
    ensures db.users == old(db.users) && db.problems == old(db.problems) && db.ledgers == old(db.ledgers)
  {
    var payments, premiums;
    payments, premiums, fixedCount, totalItems := FixPass(db.payments, db.premiums, cloud);
    db.payments, db.premiums := payments, premiums;
  }

  /** The pass of `FixUrls` over the two collections' contents. */
  method FixPass(payments0: seq<PremiumItem>, premiums0: seq<PremiumItem>, cloud: string)
    returns (payments: seq<PremiumItem>, premiums: seq<PremiumItem>, fixedCount: nat, totalItems: nat)
    ensures var items := PaymentContent(payments0) + premiums0;
            && totalItems == |items|
            && fixedCount == CountFixed(items, cloud)
            && payments == ApplyAll(payments0, items, cloud, true)
            && premiums == ApplyAll(premiums0, items, cloud, false)
  {
    var items := PaymentContent(payments0) + premiums0;
    payments, premiums := payments0, premiums0;
    fixedCount, totalItems := 0, |items|;
    var rest := items;
    while rest != []
      invariant ApplyAll(payments, rest, cloud, true) == ApplyAll(payments0, items, cloud, true)
      invariant ApplyAll(premiums, rest, cloud, false) == ApplyAll(premiums0, items, cloud, false)
      invariant fixedCount + CountFixed(rest, cloud) == CountFixed(items, cloud)
      decreases |rest|
    {
      var fixed;
      payments, premiums, fixed := VisitItem(payments, premiums, rest[0], cloud);
      if fixed {
        fixedCount := fixedCount + 1;
      }
      rest := rest[1..];
    }
  }

  /**
   * One visit of the pass: the name falls back to the old URL's last '/'
   * piece, and a local URL with a name is rewritten in the item's own store.
   */
  method VisitItem(payments: seq<PremiumItem>, premiums: seq<PremiumItem>, item: PremiumItem, cloud: string)
    returns (payments': seq<PremiumItem>, premiums': seq<PremiumItem>, fixed: bool)
    ensures payments' == UpdateUrl(payments, item, cloud, true)
    ensures premiums' == UpdateUrl(premiums, item, cloud, false)
    ensures fixed <==> Rewrite(item, cloud).Some?
  {
    payments', premiums', fixed := payments, premiums, false;
    var fileName := ReadName(item);
    if !Truthy(fileName) && Truthy(item.fileUrl) {
      fileName := Some(Text.LastPiece(item.fileUrl.value, '/'));
    }
    NameStep(item, fileName, cloud);
    if Truthy(item.fileUrl) && IsLocalUrl(item.fileUrl.value) && Truthy(fileName) {
      if item.isPremiumContent {
        payments' := UpdateUrl(payments, item, cloud, true);
      } else {
        premiums' := UpdateUrl(premiums, item, cloud, false);
      }
      fixed := true;
    }
  }

  /** The name the loop computes is the one `FixName` gives. */
  lemma NameStep(item: PremiumItem, fileName: Option<string>, cloud: string)
    requires fileName == if !Truthy(ReadName(item)) && Truthy(item.fileUrl)
                         then Some(Text.LastPiece(item.fileUrl.value, '/')) else ReadName(item)
    ensures Truthy(fileName) <==> FixName(item).Some?
    ensures Truthy(item.fileUrl) && IsLocalUrl(item.fileUrl.value) && Truthy(fileName) <==> Rewrite(item, cloud).Some?
  {
  }

  /** Visiting one more item is one `UpdateUrl`. */
  lemma StepApply(store: seq<PremiumItem>, items: seq<PremiumItem>, i: nat, cloud: string, toPayment: bool)
    requires i < |items|
    ensures ApplyAll(UpdateUrl(store, items[i], cloud, toPayment), items[i + 1..], cloud, toPayment) ==
              ApplyAll(store, items[i..], cloud, toPayment)
  {
    assert items[i..][0] == items[i] && items[i..][1..] == items[i + 1..];
  }


  /** The item as the pass leaves it in its own store. */
  function FixItem(item: PremiumItem, cloud: string, toPayment: bool): PremiumItem {
    if Rewrite(item, cloud).Some? && item.isPremiumContent == toPayment then item.(fileUrl := Rewrite(item, cloud))
    else item
  }

  predicate DistinctIds(s: seq<PremiumItem>) {
    forall i, j :: 0 <= i < j < |s| ==> s[i].id != s[j].id
  }

  /** Items of the other store leave this one unchanged. */
  lemma {:induction false} SkipOthers(store: seq<PremiumItem>, a: seq<PremiumItem>, b: seq<PremiumItem>,
                                      cloud: string, toPayment: bool)
    requires forall x :: x in a ==> x.isPremiumContent != toPayment
    ensures ApplyAll(store, a + b, cloud, toPayment) == ApplyAll(store, b, cloud, toPayment)
    decreases |a|
  {
    if a != [] {
      assert (a + b)[0] == a[0] && (a + b)[1..] == a[1..] + b;
      assert a[0] in a;
      assert forall x :: x in a[1..] ==> x in a;
      calc {
        ApplyAll(store, a + b, cloud, toPayment);
        ApplyAll(UpdateUrl(store, a[0], cloud, toPayment), a[1..] + b, cloud, toPayment);
        { assert UpdateUrl(store, a[0], cloud, toPayment) == store; }
        ApplyAll(store, a[1..] + b, cloud, toPayment);
        { SkipOthers(store, a[1..], b, cloud, toPayment); }
        ApplyAll(store, b, cloud, toPayment);
      }
    } else {
      assert a + b == b;
    }
  }

  /** When ids are distinct, the item at `n` is the first with its id. */
  lemma FoundAt(cur: seq<PremiumItem>, s: seq<PremiumItem>, n: nat)
    requires |cur| == |s| && n < |s| && DistinctIds(s)
    requires forall k :: 0 <= k < |s| ==> cur[k].id == s[k].id
    ensures IndexWhere(cur, (x: PremiumItem) => x.id == s[n].id) == Some(n)
  {
    var r := IndexWhere(cur, (x: PremiumItem) => x.id == s[n].id);
    assert cur[n].id == s[n].id;
  }

  /** Visiting the item at `n` rewrites it in place. */
  lemma UpdateAt(cur: seq<PremiumItem>, s: seq<PremiumItem>, n: nat, cloud: string, toPayment: bool)
    requires |cur| == |s| && n < |s| && DistinctIds(s)
    requires forall k :: 0 <= k < |s| ==> cur[k].id == s[k].id
    requires cur[n] == s[n]
    ensures UpdateUrl(cur, s[n], cloud, toPayment) == cur[n := FixItem(s[n], cloud, toPayment)]
  {
    FoundAt(cur, s, n);
  }

  /**
   * Visiting the items from position `n` on rewrites exactly those items
   * in place, when the store still holds them unchanged there.
   */
  lemma {:induction false} ApplySuffix(cur: seq<PremiumItem>, s: seq<PremiumItem>, n: nat, cloud: string, toPayment: bool)
    requires |cur| == |s| && n <= |s| && DistinctIds(s)
    requires forall k :: 0 <= k < |s| ==> cur[k].id == s[k].id
    requires forall k :: n <= k < |s| ==> cur[k] == s[k]
    ensures forall k :: 0 <= k < |s| ==>
              ApplyAll(cur, s[n..], cloud, toPayment)[k] == if k < n then cur[k] else FixItem(s[k], cloud, toPayment)
    decreases |s| - n
  {
    if n < |s| {
      UpdateAt(cur, s, n, cloud, toPayment);
      var next := cur[n := FixItem(s[n], cloud, toPayment)];
      StepApply(cur, s, n, cloud, toPayment);
      ApplySuffix(next, s, n + 1, cloud, toPayment);
    }
  }

  /**
   * In the Premium collection (ids distinct), the pass rewrites each item
   * with a local URL and a usable name, and leaves every other item as it
   * was.
   */
  lemma FixPremiumsPointwise(payments: seq<PremiumItem>, premiums: seq<PremiumItem>, cloud: string)
    requires DistinctIds(premiums)
    requires forall k :: 0 <= k < |premiums| ==> !premiums[k].isPremiumContent
    ensures var r := ApplyAll(premiums, PaymentContent(payments) + premiums, cloud, false);
            forall k :: 0 <= k < |premiums| ==>
              r[k] == if Rewrite(premiums[k], cloud).Some? then premiums[k].(fileUrl := Rewrite(premiums[k], cloud))
                      else premiums[k]
  {
    SkipOthers(premiums, PaymentContent(payments), premiums, cloud, false);
    ApplySuffix(premiums, premiums, 0, cloud, false);
    assert premiums[0..] == premiums;
  }

  /** Items of the other store visited after `a` leave this one as `a` left it. */
  lemma {:induction false} ApplyThenSkip(store: seq<PremiumItem>, a: seq<PremiumItem>, b: seq<PremiumItem>,
                                         cloud: string, toPayment: bool)
    requires forall x :: x in b ==> x.isPremiumContent != toPayment
    ensures ApplyAll(store, a + b, cloud, toPayment) == ApplyAll(store, a, cloud, toPayment)
    decreases |a|
  {
    if a == [] {
      assert a + b == b + [];
      SkipOthers(store, b, [], cloud, toPayment);
    } else {
      assert (a + b)[0] == a[0] && (a + b)[1..] == a[1..] + b;
      ApplyThenSkip(UpdateUrl(store, a[0], cloud, toPayment), a[1..], b, cloud, toPayment);
    }
  }

  /** In the Payment collection, visiting only the flagged items is visiting all of them. */
  lemma {:induction false} ContentOnly(store: seq<PremiumItem>, s: seq<PremiumItem>, cloud: string)
    ensures ApplyAll(store, PaymentContent(s), cloud, true) == ApplyAll(store, s, cloud, true)
    decreases |s|
  {
    if s != [] {
      ContentOnly(UpdateUrl(store, s[0], cloud, true), s[1..], cloud);
      if s[0].isPremiumContent {
        var c := PaymentContent(s);
        assert c == [s[0]] + PaymentContent(s[1..]);
        assert c[0] == s[0] && c[1..] == PaymentContent(s[1..]);
      } else {
        assert PaymentContent(s) == PaymentContent(s[1..]);
        ContentOnly(store, s[1..], cloud);
      }
    }
  }

  /**
   * In the Payment collection (ids distinct), the pass rewrites each flagged
   * item with a local URL and a usable name, and leaves every other record,
   * flagged or not, as it was.
   */
  lemma FixPaymentsPointwise(payments: seq<PremiumItem>, premiums: seq<PremiumItem>, cloud: string)
    requires DistinctIds(payments)
    requires forall k :: 0 <= k < |premiums| ==> !premiums[k].isPremiumContent
    ensures var r := ApplyAll(payments, PaymentContent(payments) + premiums, cloud, true);
            forall k :: 0 <= k < |payments| ==>
              r[k] == if payments[k].isPremiumContent && Rewrite(payments[k], cloud).Some?
                      then payments[k].(fileUrl := Rewrite(payments[k], cloud))
                      else payments[k]
  {
    ApplyThenSkip(payments, PaymentContent(payments), premiums, cloud, true);
    ContentOnly(payments, payments, cloud);
    ApplySuffix(payments, payments, 0, cloud, true);
    assert payments[0..] == payments;
  }
}
