/** `split_url` and `start_ota` of iotconnect_app.c: the download URL is cut into host and
    resource, both on the heap, and both are released whatever happens. */
module OtaStart {
  import opened Words
  import opened OtaDownload

  /** The blocks allocated and not yet freed. */
  class Allocator {
    ghost var live: set<array<char>>

    constructor ()
      ensures live == {}
    {
      live := {};
    }

    method Malloc(size: nat, ok: bool) returns (p: array?<char>)
      modifies this
      ensures (p == null) == !ok
      ensures p == null ==> live == old(live)
      ensures p != null ==> fresh(p) && p.Length == size && live == old(live) + {p}
    {
      p := null;
      if ok {
        var block := new char[size];
        live := live + {block};
        p := block;
      }
    }

    method Free(p: array<char>)
      requires p in live
      modifies this
      ensures live == old(live) - {p}
    {
      live := live - {p};
    }
  }

  /** `memcpy`, then the terminating null. */
  method CopyString(dst: array<char>, src: string)
    requires dst.Length == |src| + 1
    modifies dst
    ensures dst[..] == src + ['\0']
  {
    var i := 0;
    while i < |src|
      invariant i <= |src| && dst[..i] == src[..i]
    {
      dst[i] := src[i];
      i := i + 1;
    }
    dst[|src|] := '\0';
  }

  function Slashes(s: string): nat {
    if s == [] then 0 else Slashes(s[..|s| - 1]) + if s[|s| - 1] == '/' then 1 else 0
  }

  /** The cut: everything up to the second slash, the host, and the resource from the
      third slash on. */
  ghost predicate Parts(url: string, prefix: string, host: string, resource: string) {
    && url == prefix + host + resource
    && prefix != [] && prefix[|prefix| - 1] == '/' && Slashes(prefix) == 2
    && '/' !in host
    && resource != [] && resource[0] == '/'
  }

  lemma {:induction false} SlashesConcat(a: string, b: string)
    ensures Slashes(a + b) == Slashes(a) + Slashes(b)
  {
    if b == [] {
      assert a + b == a;
    } else {
      SlashesConcat(a, b[..|b| - 1]);
      assert (a + b)[..|a + b| - 1] == a + b[..|b| - 1];
    }
  }

  lemma {:induction false} NoSlashes(s: string)
    ensures Slashes(s) == 0 <==> '/' !in s
  {
    if s != [] {
      NoSlashes(s[..|s| - 1]);
      assert s == s[..|s| - 1] + [s[|s| - 1]];
    }
  }

  lemma StartsWithSlash(s: string)
    requires s != [] && s[0] == '/'
    ensures Slashes(s) >= 1
  {
    NoSlashes(s);
    assert '/' in s;
  }

  lemma PartsHaveThreeSlashes(url: string, prefix: string, host: string, resource: string)
    requires Parts(url, prefix, host, resource)
    ensures Slashes(url) >= 3
  {
    SlashesConcat(prefix + host, resource);
    SlashesConcat(prefix, host);
    NoSlashes(host);
    StartsWithSlash(resource);
  }

  lemma FirstSlash(s: string, host: string, resource: string)
    requires s == host + resource && '/' !in host && resource != [] && resource[0] == '/'
    ensures |host| < |s| && s[|host|] == '/' && forall k :: 0 <= k < |host| ==> s[k] != '/'
  {
    assert forall k :: 0 <= k < |host| ==> s[k] == host[k];
  }

  lemma SecondSlash(url: string, prefix: string)
    requires prefix <= url && prefix != [] && prefix[|prefix| - 1] == '/' && Slashes(prefix) == 2
    ensures Slashes(url[..|prefix|]) == 2 && forall k: nat :: k < |prefix| ==> Slashes(url[..k]) <= 1
  {
    var init := prefix[..|prefix| - 1];
    forall k: nat | k < |prefix|
      ensures Slashes(url[..k]) <= 1
    {
      assert url[..k] == init[..k];
      assert init == init[..k] + init[k..];
      SlashesConcat(init[..k], init[k..]);
    }
    assert url[..|prefix|] == prefix;
  }

  /** There is only one way to cut a URL. */
  lemma PartsUnique(url: string, p: string, h: string, r: string, p': string, h': string, r': string)
    requires Parts(url, p, h, r) && Parts(url, p', h', r')
    ensures p == p' && h == h' && r == r'
  {
    assert url[..|p|] == p && url[|p|..] == h + r;
    assert url[..|p'|] == p' && url[|p'|..] == h' + r';
    SecondSlash(url, p);
    SecondSlash(url, p');
    var s := url[|p|..];
    FirstSlash(s, h, r);
    FirstSlash(s, h', r');
    assert h == s[..|h|] && r == s[|h|..];
    assert h' == s[..|h'|] && r' == s[|h'|..];
  }

  method SplitUrl(url: string, outParams: bool, heap: Allocator, hostOk: bool, resourceOk: bool)
    returns (status: int, hostName: array?<char>, resource: array?<char>)
    modifies heap
    ensures status == if !outParams then -1
                      else if Slashes(url) < 3 then -4
                      else if !hostOk then -2
                      else if !resourceOk then -3
                      else 0
    ensures status != 0 ==> heap.live == old(heap.live)
    ensures status == 0 ==>
              && hostName != null && resource != null && fresh(hostName) && fresh(resource) && hostName != resource
              && heap.live == old(heap.live) + {hostName, resource}
              && exists prefix, h, r :: Parts(url, prefix, h, r) && hostName[..] == h + ['\0'] && resource[..] == r + ['\0']
  {
    var hostNameStart := 0;
    hostName, resource := null, null;
    if !outParams {
      return -1, null, null;
    }
    var slashCount := 0;
    var i := 0;
    while i < |url|
      invariant i <= |url| && slashCount == Slashes(url[..i]) < 3
      invariant slashCount == 2 ==>
                  && 0 < hostNameStart <= i && url[hostNameStart - 1] == '/'
                  && Slashes(url[..hostNameStart]) == 2 && '/' !in url[hostNameStart..i]
      invariant heap.live == old(heap.live) && hostName == null && resource == null
    {
      assert url[..i + 1][..i] == url[..i];
      if url[i] == '/' {
        slashCount := slashCount + 1;
        if slashCount == 2 {
          hostNameStart := i + 1;
        } else if slashCount == 3 {
          ghost var prefix, h, r := url[..hostNameStart], url[hostNameStart..i], url[i..];
          assert Parts(url, prefix, h, r);
          PartsHaveThreeSlashes(url, prefix, h, r);
          var hostNameLen := i - hostNameStart;
          var resourceLen := |url| - i;
          hostName := heap.Malloc(hostNameLen + 1, hostOk);
          if hostName == null {
            return -2, hostName, resource;
          }
          CopyString(hostName, url[hostNameStart..i]);
          resource := heap.Malloc(resourceLen + 1, resourceOk);
          if resource == null {
            heap.Free(hostName);
            return -3, hostName, resource;
          }
          CopyString(resource, url[i..]);
          return 0, hostName, resource;
        }
      }
      i := i + 1;
    }
    assert url[..i] == url;
    return -4, hostName, resource;
  }

  /** Success means the URL was cut and the download completed; in every case the heap is
      as it was. */
  method StartOta(url: string, heap: Allocator, hostOk: bool, resourceOk: bool, downloader: Downloader, dataLength: int)
    returns (status: int)
    modifies heap, downloader
    ensures heap.live == old(heap.live)
    ensures status == 0 ==>
              && Slashes(url) >= 3 && hostOk && resourceOk
              && Protocol(dataLength, downloader.trace) && Completed(dataLength, downloader.trace)
              && downloader.file == Written(downloader.trace)
    ensures Slashes(url) >= 3 && hostOk && resourceOk && status != 0 ==> status == -1 && GaveUp(downloader.trace)
    ensures !(Slashes(url) >= 3 && hostOk && resourceOk) ==>
              status < 0 && downloader.file == old(downloader.file) && downloader.trace == old(downloader.trace)
  {
    var hostName, resource;
    status, hostName, resource := SplitUrl(url, true, heap, hostOk, resourceOk);
    if status != 0 {
      return;
    }
    status := downloader.Download(dataLength);
    heap.Free(hostName);
    heap.Free(resource);
  }
}
