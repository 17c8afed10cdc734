/**
 * The OAuth configuration (`AuthParameterSet`) and the per-request parameter set
 * (`HttpParameterSet`) that signing and the Authorization header read.
 * Properties the source leaves unset (null) start as "" here.
 */
module ParameterSets {
  import opened NameValues

  const DefaultOAuthVersion: string := "1.0"
  const DefaultSignatureMethod: string := "HMAC-SHA1"

  /** OAuth keys plus version and signature method. */
  class AuthParameterSet {
    var consumerKey: string
    var consumerSecret: string
    var token: string
    var tokenSecret: string
    var oauthVersion: string
    var signatureMethod: string

    /** The default constructor: version "1.0" and HMAC-SHA1. */
    constructor ()
      ensures oauthVersion == DefaultOAuthVersion && signatureMethod == DefaultSignatureMethod
      ensures consumerKey == "" && consumerSecret == "" && token == "" && tokenSecret == ""
    {
      consumerKey, consumerSecret, token, tokenSecret := "", "", "", "";
      oauthVersion := DefaultOAuthVersion;
      signatureMethod := DefaultSignatureMethod;
    }
  }

  /** The OAuth fields plus the request's URL, method and form data. */
  class HttpParameterSet {
    var url: string
    var requestMethod: string
    var postData: NameValueCollection
    var oauthVersion: string
    var consumerKey: string
    var consumerSecret: string
    var token: string
    var tokenSecret: string
    var signatureMethod: string

    /**
     * The default constructor. Its own defaults run after the base class's, so
     * version and signature method end up "" as well, and PostData is a new, empty collection.
     */
    constructor ()
      ensures url == "" && requestMethod == ""
      ensures oauthVersion == "" && signatureMethod == ""
      ensures consumerKey == "" && consumerSecret == "" && token == "" && tokenSecret == ""
      ensures fresh(postData) && postData.Valid() && postData.entries == []
    {
      url, requestMethod := "", "";
      oauthVersion, signatureMethod := "", "";
      consumerKey, consumerSecret, token, tokenSecret := "", "", "", "";
      postData := new NameValueCollection();
    }

    /** The copy constructor: all nine fields copied; PostData is the same collection, not a clone. */
    constructor Copy(another: HttpParameterSet)
      ensures url == another.url && requestMethod == another.requestMethod
      ensures postData == another.postData
      ensures oauthVersion == another.oauthVersion && signatureMethod == another.signatureMethod
      ensures consumerKey == another.consumerKey && consumerSecret == another.consumerSecret
      ensures token == another.token && tokenSecret == another.tokenSecret
    {
      url := another.url;
      requestMethod := another.requestMethod;
      postData := another.postData;
      oauthVersion := another.oauthVersion;
      consumerKey := another.consumerKey;
      consumerSecret := another.consumerSecret;
      token := another.token;
      tokenSecret := another.tokenSecret;
      signatureMethod := another.signatureMethod;
    }
  }
}
